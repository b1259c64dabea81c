/** Typing text by synthetic keyboard events, and undoing a stream that was cut short. */
module TextInput {
  import opened Wrappers

  const VK_TAB: nat := 0x09
  const VK_RETURN: nat := 0x0D
  const VK_SHIFT: nat := 0x10
  const VK_CONTROL: nat := 0x11
  const VK_MENU: nat := 0x12
  const VK_CAPITAL: nat := 0x14

  /** The modifier table in pressing order; releasing goes through it backwards. */
  const MODIFIER_KEYS: seq<nat> := [VK_CONTROL, VK_MENU, VK_SHIFT]

  /** A set of supported modifiers, named by their virtual keys. */
  type Modifiers = m: set<nat> | m <= {VK_CONTROL, VK_MENU, VK_SHIFT}

  const NONE: Modifiers := {}

  predicate IsModifier(virtualKey: nat) {
    virtualKey in {VK_CONTROL, VK_MENU, VK_SHIFT}
  }

  /** One `SendInput` record; the two flag bits are `KEYEVENTF_KEYUP` and `KEYEVENTF_UNICODE`. */
  datatype KeyEvent = KeyEvent(virtualKey: nat, scanCode: nat, keyUp: bool, unicode: bool)

  function KeyDown(virtualKey: nat, scanCode: nat): KeyEvent { KeyEvent(virtualKey, scanCode, false, false) }

  function KeyUp(virtualKey: nat, scanCode: nat): KeyEvent { KeyEvent(virtualKey, scanCode, true, false) }

  function UnicodeDown(codeUnit: nat): KeyEvent { KeyEvent(0, codeUnit, false, true) }

  function UnicodeUp(codeUnit: nat): KeyEvent { KeyEvent(0, codeUnit, true, true) }

  datatype KeyStroke = KeyStroke(virtualKey: nat, scanCode: nat, modifiers: Modifiers)

  datatype InitialState = InitialState(modifiers: Modifiers, capsLock: bool)

  /** The keyboard layout: how a character is typed, if it has a key. */
  type Layout = char -> Option<KeyStroke>

  /** No layout types a character with a bare modifier or with caps lock. */
  ghost predicate Sane(layout: Layout) {
    forall c: char :: layout(c).Some? ==>
                        !IsModifier(layout(c).value.virtualKey) && layout(c).value.virtualKey != VK_CAPITAL
  }

  // ---- what a keyboard does with events --------------------------------------------

  /** What the application receives: a key or a code unit, with the modifiers and caps lock in force. */
  datatype Stroke =
    | Key(virtualKey: nat, scanCode: nat, modifiers: set<nat>, capsLock: bool)
    | CodeUnit(codeUnit: nat, modifiers: set<nat>, capsLock: bool)

  /** Held keys with the scan code of their last press, held code units, caps lock, strokes typed. */
  datatype Keyboard = Keyboard(held: map<nat, nat>, units: multiset<nat>, capsLock: bool, typed: seq<Stroke>)

  function HeldModifiers(k: Keyboard): set<nat> {
    k.held.Keys * {VK_CONTROL, VK_MENU, VK_SHIFT}
  }

  function Apply(k: Keyboard, e: KeyEvent): Keyboard {
    if e.unicode && e.keyUp then
      k.(units := k.units - multiset{e.scanCode})
    else if e.unicode then
      k.(units := k.units + multiset{e.scanCode},
         typed := k.typed + [CodeUnit(e.scanCode, HeldModifiers(k), k.capsLock)])
    else if e.keyUp then
      k.(held := k.held - {e.virtualKey})
    else
      k.(held := k.held[e.virtualKey := e.scanCode],
         capsLock := if e.virtualKey == VK_CAPITAL then !k.capsLock else k.capsLock,
         typed := if IsModifier(e.virtualKey) || e.virtualKey == VK_CAPITAL then k.typed
                  else k.typed + [Key(e.virtualKey, e.scanCode, HeldModifiers(k), k.capsLock)])
  }

  function Replay(k: Keyboard, events: seq<KeyEvent>): Keyboard {
    if events == [] then k else Apply(Replay(k, events[..|events| - 1]), events[|events| - 1])
  }

  /** The keyboard as the planner finds it: the user may hold modifiers and have caps lock on. */
  function Start(initial: InitialState): Keyboard {
    Keyboard(map key | key in initial.modifiers :: 0, multiset{}, initial.capsLock, [])
  }

  /** Holding exactly these modifiers, with this caps lock state, having typed these strokes. */
  function Holding(modifiers: Modifiers, capsLock: bool, typed: seq<Stroke>): Keyboard {
    Keyboard(map key | key in modifiers :: 0, multiset{}, capsLock, typed)
  }

  lemma {:induction false} ReplayAppend(k: Keyboard, left: seq<KeyEvent>, right: seq<KeyEvent>)
    ensures Replay(k, left + right) == Replay(Replay(k, left), right)
    decreases |right|
  {
    if right == [] {
      assert left + right == left;
    } else {
      assert (left + right)[..|left + right| - 1] == left + right[..|right| - 1];
      ReplayAppend(k, left, right[..|right| - 1]);
    }
  }

  lemma ReplayOne(k: Keyboard, events: seq<KeyEvent>, e: KeyEvent)
    ensures Replay(k, events + [e]) == Apply(Replay(k, events), e)
  {
    assert (events + [e])[..|events + [e]| - 1] == events;
  }

  /** Events only ever add strokes. */
  lemma {:induction false} TypedGrows(k: Keyboard, events: seq<KeyEvent>, n: nat)
    requires n <= |events|
    ensures Replay(k, events[..n]).typed <= Replay(k, events).typed
    decreases |events|
  {
    if n == |events| {
      assert events[..n] == events;
    } else {
      assert events[..|events| - 1][..n] == events[..n];
      TypedGrows(k, events[..|events| - 1], n);
    }
  }

  // ---- disciplined streams ---------------------------------------------------------

  function OrdinaryHeld(k: Keyboard): set<nat> {
    k.held.Keys - {VK_CONTROL, VK_MENU, VK_SHIFT}
  }

  /** At most one key other than a modifier, or one code unit, is held. */
  predicate OneAtATime(k: Keyboard) {
    |OrdinaryHeld(k)| + |k.units| <= 1
  }

  /** The event presses something up or releases something down. */
  predicate Effective(k: Keyboard, e: KeyEvent) {
    if e.unicode then e.keyUp <==> e.scanCode in k.units
    else e.keyUp <==> e.virtualKey in k.held
  }

  /** Every event changes the keyboard, and between any two events at most one ordinary key is held. */
  predicate Disciplined(k: Keyboard, events: seq<KeyEvent>) {
    if events == [] then OneAtATime(k)
    else
      var before := events[..|events| - 1];
      && Disciplined(k, before)
      && Effective(Replay(k, before), events[|events| - 1])
      && OneAtATime(Replay(k, events))
  }

  lemma DisciplinedOne(k: Keyboard, events: seq<KeyEvent>, e: KeyEvent)
    requires Disciplined(k, events) && Effective(Replay(k, events), e)
    requires OneAtATime(Apply(Replay(k, events), e))
    ensures Disciplined(k, events + [e])
  {
    assert (events + [e])[..|events + [e]| - 1] == events;
    ReplayOne(k, events, e);
  }

  lemma {:induction false} DisciplinedPrefix(k: Keyboard, events: seq<KeyEvent>, n: nat)
    requires Disciplined(k, events) && n <= |events|
    ensures Disciplined(k, events[..n]) && OneAtATime(Replay(k, events[..n]))
    decreases |events|
  {
    if n == |events| {
      assert events[..n] == events;
    } else {
      assert events[..|events| - 1][..n] == events[..n];
      DisciplinedPrefix(k, events[..|events| - 1], n);
    }
  }

  // ---- UTF-16 ----------------------------------------------------------------------

  /** Section 2.1 of RFC 2781. */
  function EncodeUtf16(c: char): (units: seq<nat>)
    ensures 1 <= |units| <= 2
  {
    var code := c as int;
    if code < 0x10000 then [code]
    else [0xD800 + (code - 0x10000) / 0x400, 0xDC00 + (code - 0x10000) % 0x400]
  }

  function EncodeText(text: string): seq<nat> {
    if text == [] then [] else EncodeUtf16(text[0]) + EncodeText(text[1..])
  }

  /** Section 2.2 of RFC 2781. */
  function DecodeUtf16(units: seq<nat>): Option<string> {
    if units == [] then Some("")
    else if 0xD800 <= units[0] < 0xDC00 then
      if |units| < 2 || !(0xDC00 <= units[1] < 0xE000) then None
      else
        match DecodeUtf16(units[2..])
        case None => None
        case Some(rest) => Some([((units[0] - 0xD800) * 0x400 + (units[1] - 0xDC00) + 0x10000) as char] + rest)
    else if 0xDC00 <= units[0] < 0xE000 || units[0] >= 0x10000 then None
    else
      match DecodeUtf16(units[1..])
      case None => None
      case Some(rest) => Some([units[0] as char] + rest)
  }

  lemma {:induction false} Utf16RoundTrip(text: string)
    ensures DecodeUtf16(EncodeText(text)) == Some(text)
    decreases |text|
  {
    if text != [] {
      Utf16RoundTrip(text[1..]);
      var first, rest := EncodeUtf16(text[0]), EncodeText(text[1..]);
      var code := text[0] as int;
      if code < 0x10000 {
        assert (first + rest)[1..] == rest;
      } else {
        assert (first + rest)[2..] == rest;
        assert (first[0] - 0xD800) * 0x400 + (first[1] - 0xDC00) + 0x10000 == code;
      }
      assert [text[0]] + text[1..] == text;
    }
  }

  // ---- what text should type -------------------------------------------------------

  const ENTER := Key(VK_RETURN, 0, {}, false)
  const TAB := Key(VK_TAB, 0, {}, false)

  function UnitStrokes(units: seq<nat>): seq<Stroke> {
    seq(|units|, i requires 0 <= i < |units| => CodeUnit(units[i], {}, false))
  }

  /** The number of characters the first line break or character takes up. */
  function FirstLength(text: string): nat
    requires text != []
  {
    if text[0] == '\r' && |text| > 1 && text[1] == '\n' then 2 else 1
  }

  function FirstStrokes(text: string, layout: Layout): seq<Stroke>
    requires text != []
  {
    if text[0] == '\r' || text[0] == '\n' then [ENTER]
    else if text[0] == '\t' then [TAB]
    else match layout(text[0])
      case Some(stroke) => [Key(stroke.virtualKey, stroke.scanCode, stroke.modifiers, false)]
      case None => UnitStrokes(EncodeUtf16(text[0]))
  }

  /** The strokes a text stands for: one Enter for CR, LF or CRLF, Tab, mapped characters with exactly
      their modifiers and caps lock off, and UTF-16 code units for the rest. */
  function Strokes(text: string, layout: Layout): seq<Stroke>
    decreases |text|
  {
    if text == [] then []
    else FirstStrokes(text, layout) + Strokes(text[FirstLength(text)..], layout)
  }

  /** One character alone: Enter, Tab, its key of the layout with exactly the key's modifiers, or the code
      units it decodes from; a carriage return and the line feed behind it are one Enter. */
  lemma StrokesOfOne(c: char, layout: Layout)
    ensures Strokes([c], layout) ==
            if c == '\r' || c == '\n' then [Key(0x0D, 0, {}, false)]
            else if c == '\t' then [Key(0x09, 0, {}, false)]
            else match layout(c)
              case Some(key) => [Key(key.virtualKey, key.scanCode, key.modifiers, false)]
              case None => seq(|EncodeUtf16(c)|,
                               i requires 0 <= i < |EncodeUtf16(c)| => CodeUnit(EncodeUtf16(c)[i], {}, false))
    ensures Strokes("\r\n", layout) == [Key(0x0D, 0, {}, false)]
    ensures Strokes("", layout) == []
  {
    hide EncodeUtf16;
    assert [c][1..] == "" && "\r\n"[2..] == "" && "\r\n"[0] == '\r' && "\r\n"[1] == '\n';
    assert FirstStrokes([c], layout) + [] == FirstStrokes([c], layout);
  }

  /** Texts one after the other type their strokes one after the other, unless that joins a line break. */
  lemma {:induction false} StrokesAppend(left: string, right: string, layout: Layout)
    requires left != [] && right != [] ==> !(left[|left| - 1] == '\r' && right[0] == '\n')
    ensures Strokes(left + right, layout) == Strokes(left, layout) + Strokes(right, layout)
    decreases |left|
  {
    hide FirstStrokes;
    if left == [] {
      assert left + right == right;
    } else {
      var whole, n := left + right, FirstLength(left);
      assert FirstLength(whole) == n && whole[n..] == left[n..] + right;
      FirstStrokesAppend(left, right, layout);
      StrokesAppend(left[n..], right, layout);
    }
  }

  lemma FirstStrokesAppend(left: string, right: string, layout: Layout)
    requires left != []
    ensures FirstStrokes(left + right, layout) == FirstStrokes(left, layout)
  {
  }

  function UnitOf(stroke: Stroke): seq<nat> {
    if stroke.CodeUnit? then [stroke.codeUnit] else []
  }

  function CodeUnits(strokes: seq<Stroke>): seq<nat> {
    if strokes == [] then []
    else UnitOf(strokes[0]) + CodeUnits(strokes[1..])
  }

  lemma {:induction false} CodeUnitsAppend(left: seq<Stroke>, right: seq<Stroke>)
    ensures CodeUnits(left + right) == CodeUnits(left) + CodeUnits(right)
    decreases |left|
  {
    hide UnitOf;
    if left == [] {
      assert left + right == right;
    } else {
      assert (left + right)[1..] == left[1..] + right;
      CodeUnitsAppend(left[1..], right);
    }
  }

  lemma NoStrokes()
    ensures CodeUnits([]) == []
  {
  }

  lemma {:induction false} UnitStrokesAreUnits(units: seq<nat>)
    ensures CodeUnits(UnitStrokes(units)) == units
    decreases |units|
  {
    if units != [] {
      assert UnitStrokes(units)[1..] == UnitStrokes(units[1..]);
      UnitStrokesAreUnits(units[1..]);
    }
  }

  /** Text that needs no key of the layout arrives as code units that decode to that text. */
  lemma {:induction false} UnmappedTextArrives(text: string, layout: Layout)
    requires forall c | c in text :: c !in "\r\n\t" && layout(c).None?
    ensures CodeUnits(Strokes(text, layout)) == EncodeText(text)
    ensures DecodeUtf16(CodeUnits(Strokes(text, layout))) == Some(text)
    decreases |text|
  {
    hide DecodeUtf16, EncodeUtf16, CodeUnits, UnitStrokes;
    Utf16RoundTrip(text);
    if text == [] {
      NoStrokes();
    } else {
      assert text[0] in text;
      UnmappedTextArrives(text[1..], layout);
      UnitStrokesAreUnits(EncodeUtf16(text[0]));
      CodeUnitsAppend(UnitStrokes(EncodeUtf16(text[0])), Strokes(text[1..], layout));
    }
  }

  // ---- the planner -----------------------------------------------------------------

  /** The stream so far is disciplined and leaves exactly these modifiers held. */
  ghost predicate Reaches(start: Keyboard, events: seq<KeyEvent>, held: Modifiers, capsLock: bool, typed: seq<Stroke>) {
    Disciplined(start, events) && Replay(start, events) == Holding(held, capsLock, typed)
  }

  lemma HoldingIsQuiet(held: Modifiers, capsLock: bool, typed: seq<Stroke>)
    ensures var k := Holding(held, capsLock, typed);
            OrdinaryHeld(k) == {} && HeldModifiers(k) == held && OneAtATime(k)
  {
    assert Holding(held, capsLock, typed).held.Keys == held;
  }

  lemma Extend(start: Keyboard, events: seq<KeyEvent>, before: Keyboard, e: KeyEvent)
    requires Disciplined(start, events) && Replay(start, events) == before
    requires Effective(before, e) && OneAtATime(Apply(before, e))
    ensures Disciplined(start, events + [e]) && Replay(start, events + [e]) == Apply(before, e)
  {
    DisciplinedOne(start, events, e);
    ReplayOne(start, events, e);
  }

  lemma PressOnHolding(held: Modifiers, capsLock: bool, typed: seq<Stroke>, key: nat)
    requires IsModifier(key) && key !in held
    ensures var before := Holding(held, capsLock, typed);
            Effective(before, KeyDown(key, 0))
                && Apply(before, KeyDown(key, 0)) == Holding(held + {key}, capsLock, typed)
  {
    assert Apply(Holding(held, capsLock, typed), KeyDown(key, 0)).held == Holding(held + {key}, capsLock, typed).held;
  }

  function With(held: Modifiers, key: nat): Modifiers
    requires IsModifier(key)
  {
    held + {key}
  }

  lemma PressModifier(start: Keyboard, events: seq<KeyEvent>, held: Modifiers, capsLock: bool, typed: seq<Stroke>,
                      key: nat)
    requires IsModifier(key) && key !in held && Reaches(start, events, held, capsLock, typed)
    ensures Reaches(start, events + [KeyDown(key, 0)], With(held, key), capsLock, typed)
  {
    hide Disciplined, Replay, Apply, Effective, OneAtATime, Holding;
    PressOnHolding(held, capsLock, typed, key);
    HoldingIsQuiet(held + {key}, capsLock, typed);
    Extend(start, events, Holding(held, capsLock, typed), KeyDown(key, 0));
  }

  lemma ReleaseOnHolding(held: Modifiers, capsLock: bool, typed: seq<Stroke>, key: nat)
    requires key in held
    ensures var before := Holding(held, capsLock, typed);
            Effective(before, KeyUp(key, 0)) && Apply(before, KeyUp(key, 0)) == Holding(held - {key}, capsLock, typed)
  {
    assert Apply(Holding(held, capsLock, typed), KeyUp(key, 0)).held == Holding(held - {key}, capsLock, typed).held;
  }

  lemma ReleaseModifier(start: Keyboard, events: seq<KeyEvent>, held: Modifiers, capsLock: bool, typed: seq<Stroke>,
                        key: nat)
    requires Reaches(start, events, held, capsLock, typed) && key in held
    ensures Reaches(start, events + [KeyUp(key, 0)], held - {key}, capsLock, typed)
  {
    hide Disciplined, Replay, Apply, Effective, OneAtATime, Holding;
    ReleaseOnHolding(held, capsLock, typed, key);
    HoldingIsQuiet(held - {key}, capsLock, typed);
    Extend(start, events, Holding(held, capsLock, typed), KeyUp(key, 0));
  }

  /** Moves from holding `active` to holding `required`, ups before downs, and types nothing. */
  method TransitionModifiers(events: seq<KeyEvent>, active: Modifiers, required: Modifiers,
                             ghost start: Keyboard, ghost capsLock: bool, ghost typed: seq<Stroke>)
    returns (more: seq<KeyEvent>)
    requires Reaches(start, events, active, capsLock, typed)
    ensures Reaches(start, more, required, capsLock, typed)
  {
    hide Reaches;
    more := events;
    var now := active;
    var i := |MODIFIER_KEYS|;
    while i > 0
      invariant 0 <= i <= |MODIFIER_KEYS|
      invariant now <= active && active * required <= now
      invariant forall j :: i <= j < |MODIFIER_KEYS| && MODIFIER_KEYS[j] in now ==> MODIFIER_KEYS[j] in required
      invariant Reaches(start, more, now, capsLock, typed)
    {
      i := i - 1;
      var key := MODIFIER_KEYS[i];
      if key in now && key !in required {
        ReleaseModifier(start, more, now, capsLock, typed, key);
        more := more + [KeyUp(key, 0)];
        now := now - {key};
      }
    }
    assert MODIFIER_KEYS[0] == VK_CONTROL && MODIFIER_KEYS[1] == VK_MENU && MODIFIER_KEYS[2] == VK_SHIFT;
    assert now == active * required;
    for i := 0 to |MODIFIER_KEYS|
      invariant active * required <= now <= required
      invariant forall j :: 0 <= j < i && MODIFIER_KEYS[j] in required ==> MODIFIER_KEYS[j] in now
      invariant Reaches(start, more, now, capsLock, typed)
    {
      var key := MODIFIER_KEYS[i];
      if key !in now && key in required {
        PressModifier(start, more, now, capsLock, typed, key);
        more := more + [KeyDown(key, 0)];
        now := now + {key};
      }
    }
    assert now == required;
  }

  /** A click of an ordinary key types one stroke with the modifiers held and leaves nothing else held. */
  lemma ClickTypes(start: Keyboard, events: seq<KeyEvent>, held: Modifiers, capsLock: bool, typed: seq<Stroke>,
                   key: nat, scanCode: nat)
    requires Reaches(start, events, held, capsLock, typed) && !IsModifier(key)
    ensures Reaches(start, events + [KeyDown(key, scanCode), KeyUp(key, scanCode)], held,
                    if key == VK_CAPITAL then !capsLock else capsLock,
                    if key == VK_CAPITAL then typed else typed + [Key(key, scanCode, held, capsLock)])
  {
    hide Disciplined, Replay;
    var before := Holding(held, capsLock, typed);
    var down := events + [KeyDown(key, scanCode)];
    var pressed := Apply(before, KeyDown(key, scanCode));
    var released := Apply(pressed, KeyUp(key, scanCode));
    ClickOnHolding(held, capsLock, typed, key, scanCode);
    Extend(start, events, before, KeyDown(key, scanCode));
    Extend(start, down, pressed, KeyUp(key, scanCode));
    assert down + [KeyUp(key, scanCode)] == events + [KeyDown(key, scanCode), KeyUp(key, scanCode)];
  }

  lemma ClickOnHolding(held: Modifiers, capsLock: bool, typed: seq<Stroke>, key: nat, scanCode: nat)
    requires !IsModifier(key)
    ensures var before := Holding(held, capsLock, typed);
            var pressed := Apply(before, KeyDown(key, scanCode));
            && Effective(before, KeyDown(key, scanCode)) && OneAtATime(pressed)
            && Effective(pressed, KeyUp(key, scanCode))
            && Apply(pressed, KeyUp(key, scanCode))
               == Holding(held, if key == VK_CAPITAL then !capsLock else capsLock,
                          if key == VK_CAPITAL then typed else typed + [Key(key, scanCode, held, capsLock)])
            && OneAtATime(Apply(pressed, KeyUp(key, scanCode)))
  {
    var before := Holding(held, capsLock, typed);
    KeyOnHolding(held, capsLock, typed, key, scanCode);
    hide HeldModifiers, OrdinaryHeld, OneAtATime;
    var released := Apply(Apply(before, KeyDown(key, scanCode)), KeyUp(key, scanCode));
    assert released.held == before.held;
    HoldingIsQuiet(held, released.capsLock, released.typed);
  }

  lemma KeyOnHolding(held: Modifiers, capsLock: bool, typed: seq<Stroke>, key: nat, scanCode: nat)
    requires !IsModifier(key)
    ensures var before := Holding(held, capsLock, typed);
            var pressed := Apply(before, KeyDown(key, scanCode));
            && OneAtATime(pressed) && key in pressed.held && key !in before.held
            && HeldModifiers(before) == held
  {
    HoldingIsQuiet(held, capsLock, typed);
    var pressed := Apply(Holding(held, capsLock, typed), KeyDown(key, scanCode));
    assert OrdinaryHeld(pressed) == {key};
  }

  lemma UnitTypes(start: Keyboard, events: seq<KeyEvent>, capsLock: bool, typed: seq<Stroke>, codeUnit: nat)
    requires Reaches(start, events, NONE, capsLock, typed)
    ensures Reaches(start, events + [UnicodeDown(codeUnit), UnicodeUp(codeUnit)], NONE, capsLock,
                    typed + [CodeUnit(codeUnit, {}, capsLock)])
  {
    hide Disciplined, Replay;
    var before := Holding(NONE, capsLock, typed);
    var down := events + [UnicodeDown(codeUnit)];
    var pressed := Apply(before, UnicodeDown(codeUnit));
    HoldingIsQuiet(NONE, capsLock, typed);
    assert pressed.units == multiset{codeUnit};
    Extend(start, events, before, UnicodeDown(codeUnit));
    var released := Apply(pressed, UnicodeUp(codeUnit));
    assert released.units == multiset{};
    HoldingIsQuiet(NONE, capsLock, released.typed);
    Extend(start, down, pressed, UnicodeUp(codeUnit));
    assert down + [UnicodeUp(codeUnit)] == events + [UnicodeDown(codeUnit), UnicodeUp(codeUnit)];
  }

  method PushKeyClick(events: seq<KeyEvent>, key: nat, scanCode: nat,
                      ghost start: Keyboard, ghost held: Modifiers, ghost capsLock: bool, ghost typed: seq<Stroke>)
    returns (more: seq<KeyEvent>)
    requires Reaches(start, events, held, capsLock, typed) && !IsModifier(key)
    ensures more == events + [KeyDown(key, scanCode), KeyUp(key, scanCode)]
    ensures key == VK_CAPITAL ==> Reaches(start, more, held, !capsLock, typed)
    ensures key != VK_CAPITAL ==> Reaches(start, more, held, capsLock, typed + [Key(key, scanCode, held, capsLock)])
  {
    ClickTypes(start, events, held, capsLock, typed, key, scanCode);
    more := events + [KeyDown(key, scanCode)];
    more := more + [KeyUp(key, scanCode)];
  }

  method PushCodeUnits(events: seq<KeyEvent>, units: seq<nat>, ghost start: Keyboard, ghost typed: seq<Stroke>)
    returns (more: seq<KeyEvent>)
    requires Reaches(start, events, NONE, false, typed)
    ensures Reaches(start, more, NONE, false, typed + UnitStrokes(units))
  {
    hide Reaches;
    more := events;
    assert typed + UnitStrokes(units[..0]) == typed;
    for i := 0 to |units|
      invariant Reaches(start, more, NONE, false, typed + UnitStrokes(units[..i]))
    {
      UnitTypes(start, more, false, typed + UnitStrokes(units[..i]), units[i]);
      more := more + [UnicodeDown(units[i]), UnicodeUp(units[i])];
      assert typed + UnitStrokes(units[..i + 1])
          == typed + UnitStrokes(units[..i]) + [CodeUnit(units[i], {}, false)];
    }
    assert units[..|units|] == units;
  }

  predicate FirstNulAt(text: string, index: nat) {
    index < |text| && text[index] == '\0' && '\0' !in text[..index]
  }

  /** Types the first line break or character of `text` and tells how many characters that was. */
  method TypeFirst(text: string, layout: Layout, soFar: seq<KeyEvent>, active: Modifiers,
                   ghost start: Keyboard, ghost typed: seq<Stroke>)
    returns (events: seq<KeyEvent>, now: Modifiers, consumed: nat)
    requires text != [] && text[0] != '\0' && Sane(layout)
    requires Reaches(start, soFar, active, false, typed)
    ensures consumed == FirstLength(text) <= |text|
    ensures Reaches(start, events, now, false, typed + FirstStrokes(text, layout))
  {
    hide Reaches;
    var character := text[0];
    consumed := 1;
    now := NONE;
    if character == '\r' {
      if |text| > 1 && text[1] == '\n' {
        consumed := 2;
      }
      events := TransitionModifiers(soFar, active, NONE, start, false, typed);
      events := PushKeyClick(events, VK_RETURN, 0, start, NONE, false, typed);
    } else if character == '\n' {
      events := TransitionModifiers(soFar, active, NONE, start, false, typed);
      events := PushKeyClick(events, VK_RETURN, 0, start, NONE, false, typed);
    } else if character == '\t' {
      events := TransitionModifiers(soFar, active, NONE, start, false, typed);
      events := PushKeyClick(events, VK_TAB, 0, start, NONE, false, typed);
    } else {
      match layout(character) {
        case Some(stroke) =>
          events := TransitionModifiers(soFar, active, stroke.modifiers, start, false, typed);
          now := stroke.modifiers;
          events := PushKeyClick(events, stroke.virtualKey, stroke.scanCode, start, now, false, typed);
        case None =>
          events := TransitionModifiers(soFar, active, NONE, start, false, typed);
          events := PushCodeUnits(events, EncodeUtf16(character), start, typed);
      }
    }
  }

  lemma NoNulInFirst(text: string, position: nat)
    requires position < |text| && text[position] != '\0' && '\0' !in text[..position]
    ensures position < position + FirstLength(text[position..]) <= |text|
    ensures '\0' !in text[..position + FirstLength(text[position..])]
  {
    var next := position + FirstLength(text[position..]);
    assert next == position + 2 ==> text[position + 1] == '\n';
    assert text[..next] == text[..position]
        + (if next == position + 1 then [text[position]] else [text[position], text[position + 1]]);
  }

  lemma StrokesFrom(text: string, layout: Layout, position: nat)
    requires position < |text|
    ensures var rest := text[position..]; var next := position + FirstLength(rest);
            next <= |text| && Strokes(rest, layout) == FirstStrokes(rest, layout) + Strokes(text[next..], layout)
  {
    hide FirstStrokes;
    var rest := text[position..];
    assert rest[FirstLength(rest)..] == text[position + FirstLength(rest)..];
  }

  lemma TypedOneMore(text: string, layout: Layout, position: nat, typed: seq<Stroke>)
    requires position < |text| && text[position] != '\0' && '\0' !in text[..position]
    requires typed + Strokes(text[position..], layout) == Strokes(text, layout)
    ensures var rest := text[position..]; var next := position + FirstLength(rest);
            && position < next <= |text| && '\0' !in text[..next]
            && typed + FirstStrokes(rest, layout) + Strokes(text[next..], layout) == Strokes(text, layout)
  {
    NoNulInFirst(text, position);
    StrokesFrom(text, layout, position);
    hide FirstStrokes, Strokes, FirstLength;
  }

  /** Typing fails exactly on text with a NUL, naming the first one's 1-based position. Otherwise the
      planned stream types exactly the strokes the text stands for, is disciplined throughout, and
      leaves the keyboard as it was found. */
  method PlanText(text: string, initial: InitialState, layout: Layout) returns (result: Result<seq<KeyEvent>, nat>)
    requires Sane(layout)
    ensures result.Err? <==> '\0' in text
    ensures result.Err? ==> result.error >= 1 && FirstNulAt(text, result.error - 1)
    ensures result.Ok? ==>
              Reaches(Start(initial), result.value, initial.modifiers, initial.capsLock, Strokes(text, layout))
  {
    hide Reaches, FirstStrokes, FirstLength, Start, Sane;
    ghost var start := Start(initial);
    var events: seq<KeyEvent> := [];
    StartReaches(initial);
    events := TransitionModifiers(events, initial.modifiers, NONE, start, initial.capsLock, []);
    if initial.capsLock {
      events := PushKeyClick(events, VK_CAPITAL, 0, start, NONE, true, []);
    }
    var active: Modifiers := NONE;
    var position := 0;
    ghost var typed: seq<Stroke> := [];
    while position < |text|
      invariant position <= |text|
      invariant '\0' !in text[..position]
      invariant Reaches(start, events, active, false, typed)
      invariant typed + Strokes(text[position..], layout) == Strokes(text, layout)
      decreases |text| - position
    {
      if text[position] == '\0' {
        return Err(position + 1);
      }
      TypedOneMore(text, layout, position, typed);
      hide Strokes;
      var consumed;
      events, active, consumed := TypeFirst(text[position..], layout, events, active, start, typed);
      typed := typed + FirstStrokes(text[position..], layout);
      position := position + consumed;
    }
    assert text[..position] == text && text[position..] == "";
    assert typed == Strokes(text, layout);
    events := TransitionModifiers(events, active, NONE, start, false, typed);
    if initial.capsLock {
      events := PushKeyClick(events, VK_CAPITAL, 0, start, NONE, false, typed);
    }
    events := TransitionModifiers(events, NONE, initial.modifiers, start, initial.capsLock, typed);
    result := Ok(events);
  }

  lemma StartReaches(initial: InitialState)
    ensures Reaches(Start(initial), [], initial.modifiers, initial.capsLock, [])
  {
    HoldingIsQuiet(initial.modifiers, initial.capsLock, []);
  }

  // ---- recovery from a cut ---------------------------------------------------------

  /** Nothing but the user's own modifiers is held and caps lock is as found. */
  predicate Restored(k: Keyboard, initial: InitialState) {
    k.held.Keys == initial.modifiers && k.units == multiset{} && k.capsLock == initial.capsLock
  }

  /** How many single differences separate a keyboard from the one the user left. */
  function Differences(k: Keyboard, initial: InitialState): nat {
    |k.units| + |k.held.Keys - initial.modifiers| + |initial.modifiers - k.held.Keys|
    + (if k.capsLock != initial.capsLock then 2 else 0)
  }

  /** What the recovery has to bring about, with `typed` unchanged. */
  ghost predicate Undoes(k: Keyboard, recovery: seq<KeyEvent>, after: Keyboard) {
    Replay(k, recovery) == after
  }

  lemma UndoOneMore(k: Keyboard, recovery: seq<KeyEvent>, before: Keyboard, e: KeyEvent)
    requires Undoes(k, recovery, before)
    ensures Undoes(k, recovery + [e], Apply(before, e))
  {
    ReplayOne(k, recovery, e);
  }

  lemma MaximumExists(keys: set<nat>)
    requires keys != {}
    ensures exists key :: key in keys && forall other | other in keys :: other <= key
  {
    var some :| some in keys;
    var rest := keys - {some};
    assert forall other | other in keys :: other == some || other in rest;
    if rest == {} {
      assert some in keys && forall other | other in keys :: other <= some;
    } else {
      MaximumExists(rest);
      var top :| top in rest && forall other | other in rest :: other <= top;
      var larger := if some > top then some else top;
      assert larger in keys && forall other | other in keys :: other <= larger;
    }
  }

  /** What the recovery believes about the keyboard is what the keyboard is. */
  ghost predicate Tracks(k: Keyboard, downKeys: map<nat, nat>, downUnicode: seq<nat>, capsLock: bool) {
    downKeys == k.held && multiset(downUnicode) == k.units && capsLock == k.capsLock
  }

  /** Takes the latest held code unit of this value away, if there is one. */
  method ReleaseUnit(held: seq<nat>, unit: nat) returns (units: seq<nat>)
    ensures multiset(units) == multiset(held) - multiset{unit}
  {
    var index := |held|;
    while index > 0 && held[index - 1] != unit
      invariant 0 <= index <= |held|
      invariant unit !in held[index..]
    {
      index := index - 1;
    }
    if index == 0 {
      assert held[0..] == held;
      NotHeld(held, unit);
      return held;
    }
    RemoveAt(held, index - 1);
    return held[..index - 1] + held[index..];
  }

  lemma NotHeld(held: seq<nat>, unit: nat)
    requires unit !in held
    ensures multiset(held) - multiset{unit} == multiset(held)
  {
    assert unit !in multiset(held);
  }

  method TrackEvent(event: KeyEvent, downKeys: map<nat, nat>, downUnicode: seq<nat>, capsLock: bool, ghost k: Keyboard)
    returns (keys: map<nat, nat>, units: seq<nat>, caps: bool)
    requires Tracks(k, downKeys, downUnicode, capsLock)
    ensures Tracks(Apply(k, event), keys, units, caps)
  {
    keys, units, caps := downKeys, downUnicode, capsLock;
    if event.unicode {
      if event.keyUp {
        units := ReleaseUnit(units, event.scanCode);
      } else {
        units := units + [event.scanCode];
      }
    } else if event.keyUp {
      keys := keys - {event.virtualKey};
    } else {
      keys := keys[event.virtualKey := event.scanCode];
      if event.virtualKey == VK_CAPITAL {
        caps := !caps;
      }
    }
  }

  /** Reads off the accepted prefix which keys and code units it left held. */
  method TrackPrefix(events: seq<KeyEvent>, initial: InitialState)
    returns (downKeys: map<nat, nat>, downUnicode: seq<nat>, capsLock: bool)
    ensures Tracks(Replay(Start(initial), events), downKeys, downUnicode, capsLock)
  {
    hide Apply;
    ghost var start := Start(initial);
    downKeys := map key | key in initial.modifiers :: 0;
    downUnicode := [];
    capsLock := initial.capsLock;
    assert Tracks(start, downKeys, downUnicode, capsLock);
    hide Tracks;
    for i := 0 to |events|
      invariant Tracks(Replay(start, events[..i]), downKeys, downUnicode, capsLock)
    {
      downKeys, downUnicode, capsLock :=
        TrackEvent(events[i], downKeys, downUnicode, capsLock, Replay(start, events[..i]));
      ReplayOne(start, events[..i], events[i]);
      assert events[..i + 1] == events[..i] + [events[i]];
    }
    assert events[..|events|] == events;
  }

  lemma RemoveAt(s: seq<nat>, i: nat)
    requires i < |s|
    ensures multiset(s[..i] + s[i + 1..]) == multiset(s) - multiset{s[i]}
  {
    assert s == s[..i] + ([s[i]] + s[i + 1..]);
  }

  method ReleaseUnits(k: Keyboard, downUnicode: seq<nat>) returns (recovery: seq<KeyEvent>)
    requires multiset(downUnicode) == k.units
    ensures Undoes(k, recovery, k.(units := multiset{})) && |recovery| == |k.units|
  {
    recovery := [];
    var left := downUnicode;
    while left != []
      invariant Undoes(k, recovery, k.(units := multiset(left)))
      invariant |recovery| + |left| == |downUnicode|
    {
      var last := left[|left| - 1];
      RemoveAt(left, |left| - 1);
      UndoOneMore(k, recovery, k.(units := multiset(left)), UnicodeUp(last));
      recovery := recovery + [UnicodeUp(last)];
      assert left[..|left| - 1] + left[|left|..] == left[..|left| - 1];
      left := left[..|left| - 1];
    }
  }

  /** Releasing these keys, and nothing else. */
  function Releasing(k: Keyboard, keys: set<nat>): Keyboard {
    k.(held := k.held - keys)
  }

  lemma ReleaseOneMore(k: Keyboard, recovery: seq<KeyEvent>, at: Keyboard, gone: set<nat>, key: nat)
    requires Undoes(k, recovery, Releasing(at, gone)) && key in at.held
    ensures Undoes(k, recovery + [KeyUp(key, at.held[key])], Releasing(at, gone + {key}))
  {
    UndoOneMore(k, recovery, Releasing(at, gone), KeyUp(key, at.held[key]));
    assert at.held - gone - {key} == at.held - (gone + {key});
  }

  /** The releases from `from` on: each carries its key's scan code, in falling virtual key order. */
  ghost predicate FallingReleases(recovery: seq<KeyEvent>, from: nat, held: map<nat, nat>) {
    && (forall i | from <= i < |recovery| ::
          recovery[i].virtualKey in held
          && recovery[i] == KeyUp(recovery[i].virtualKey, held[recovery[i].virtualKey]))
    && (forall i, j | from <= i < j < |recovery| :: recovery[i].virtualKey > recovery[j].virtualKey)
  }

  ghost predicate AllBelow(keys: set<nat>, recovery: seq<KeyEvent>, from: nat) {
    forall key, i | key in keys && from <= i < |recovery| :: key < recovery[i].virtualKey
  }

  lemma NothingBelow(keys: set<nat>, recovery: seq<KeyEvent>)
    ensures AllBelow(keys, recovery, |recovery|)
  {
  }

  lemma OneMoreRelease(recovery: seq<KeyEvent>, from: nat, held: map<nat, nat>, remaining: set<nat>, key: nat)
    requires FallingReleases(recovery, from, held) && AllBelow(remaining, recovery, from)
    requires key in remaining && key in held && forall other | other in remaining :: other <= key
    ensures FallingReleases(recovery + [KeyUp(key, held[key])], from, held)
    ensures AllBelow(remaining - {key}, recovery + [KeyUp(key, held[key])], from)
  {
  }

  /** Releases every held key the user does not hold, highest virtual key first, with its scan code. */
  method ReleaseKeys(k: Keyboard, soFar: seq<KeyEvent>, at: Keyboard, desired: set<nat>)
    returns (recovery: seq<KeyEvent>)
    requires Undoes(k, soFar, at)
    ensures Undoes(k, recovery, Releasing(at, at.held.Keys - desired))
    ensures |recovery| == |soFar| + |at.held.Keys - desired|
    ensures soFar <= recovery && FallingReleases(recovery, |soFar|, at.held)
  {
    hide Undoes, Releasing;
    recovery := soFar;
    assert FallingReleases(recovery, |soFar|, at.held);
    hide FallingReleases, AllBelow;
    var remaining := at.held.Keys - desired;
    ghost var gone: set<nat> := {};
    ReleasingNothing(at);
    NothingBelow(remaining, recovery);
    while remaining != {}
      invariant gone + remaining == at.held.Keys - desired && gone !! remaining
      invariant |recovery| == |soFar| + |gone| && soFar <= recovery
      invariant Undoes(k, recovery, Releasing(at, gone))
      invariant FallingReleases(recovery, |soFar|, at.held)
      invariant AllBelow(remaining, recovery, |soFar|)
      decreases remaining
    {
      MaximumExists(remaining);
      var key :| key in remaining && forall other | other in remaining :: other <= key;
      ReleaseOneMore(k, recovery, at, gone, key);
      OneMoreRelease(recovery, |soFar|, at.held, remaining, key);
      recovery := recovery + [KeyUp(key, at.held[key])];
      gone := gone + {key};
      remaining := remaining - {key};
    }
    assert gone == at.held.Keys - desired;
  }

  lemma ReleasingNothing(k: Keyboard)
    ensures Releasing(k, {}) == k
  {
    assert k.held - {} == k.held;
  }

  /** The same keyboard with these keys freshly pressed. */
  function Pressing(k: Keyboard, keys: set<nat>): Keyboard {
    k.(held := map key | key in k.held.Keys + keys :: if key in keys then 0 else k.held[key])
  }

  lemma PressOneMore(k: Keyboard, recovery: seq<KeyEvent>, at: Keyboard, pressed: set<nat>, key: nat)
    requires Undoes(k, recovery, Pressing(at, pressed)) && IsModifier(key)
    ensures Undoes(k, recovery + [KeyDown(key, 0)], Pressing(at, pressed + {key}))
  {
    hide Undoes, Apply, Pressing;
    UndoOneMore(k, recovery, Pressing(at, pressed), KeyDown(key, 0));
    PressingOneMore(at, pressed, key);
  }

  lemma PressingOneMore(at: Keyboard, pressed: set<nat>, key: nat)
    requires IsModifier(key)
    ensures Apply(Pressing(at, pressed), KeyDown(key, 0)) == Pressing(at, pressed + {key})
  {
    assert Pressing(at, pressed).held[key := 0] == Pressing(at, pressed + {key}).held;
    hide HeldModifiers;
  }

  /** The table entries of a modifier set, in table order. */
  function VirtualKeys(modifiers: Modifiers): (keys: seq<nat>)
    ensures forall key :: key in keys <==> key in modifiers
    ensures forall i, j :: 0 <= i < j < |keys| ==> keys[i] != keys[j]
  {
    (if VK_CONTROL in modifiers then [VK_CONTROL] else [])
    + (if VK_MENU in modifiers then [VK_MENU] else [])
    + (if VK_SHIFT in modifiers then [VK_SHIFT] else [])
  }

  /** Presses the user's modifiers that the prefix had released. */
  method PressDesired(k: Keyboard, soFar: seq<KeyEvent>, at: Keyboard, desired: Modifiers)
    returns (recovery: seq<KeyEvent>)
    requires Undoes(k, soFar, at)
    ensures Undoes(k, recovery, Pressing(at, desired - at.held.Keys))
    ensures |recovery| == |soFar| + |desired - at.held.Keys|
  {
    hide Undoes, Pressing, VirtualKeys;
    recovery := soFar;
    var keys := VirtualKeys(desired);
    ghost var pressed: set<nat> := {};
    PressingNothing(at);
    for i := 0 to |keys|
      invariant Undoes(k, recovery, Pressing(at, pressed))
      invariant forall key :: key in pressed <==> key in keys[..i] && key !in at.held
      invariant |recovery| == |soFar| + |pressed|
    {
      var key := keys[i];
      if key !in at.held {
        assert key !in keys[..i] && key in keys && key in desired;
        assert desired <= {VK_CONTROL, VK_MENU, VK_SHIFT};
        PressOneMore(k, recovery, at, pressed, key);
        recovery := recovery + [KeyDown(key, 0)];
        pressed := pressed + {key};
      }
    }
    assert pressed == desired - at.held.Keys;
  }

  lemma PressingNothing(k: Keyboard)
    ensures Pressing(k, {}) == k
  {
    assert Pressing(k, {}).held == k.held;
  }

  method ClickCaps(k: Keyboard, soFar: seq<KeyEvent>, at: Keyboard) returns (recovery: seq<KeyEvent>)
    requires Undoes(k, soFar, at) && VK_CAPITAL !in at.held
    ensures Undoes(k, recovery, at.(capsLock := !at.capsLock)) && |recovery| == |soFar| + 2
  {
    hide Undoes;
    var down := soFar + [KeyDown(VK_CAPITAL, 0)];
    UndoOneMore(k, soFar, at, KeyDown(VK_CAPITAL, 0));
    UndoOneMore(k, down, Apply(at, KeyDown(VK_CAPITAL, 0)), KeyUp(VK_CAPITAL, 0));
    assert at.held[VK_CAPITAL := 0] - {VK_CAPITAL} == at.held;
    recovery := down + [KeyUp(VK_CAPITAL, 0)];
  }

  /** After any cut of any stream, the recovery restores the user's keyboard, types nothing more, and
      sends one event per difference (two for caps lock). */
  method RecoveryEvents(events: seq<KeyEvent>, sent: nat, initial: InitialState) returns (recovery: seq<KeyEvent>)
    ensures var k := Replay(Start(initial), events[..if sent < |events| then sent else |events|]);
            && Restored(Replay(k, recovery), initial)
            && Replay(k, recovery).typed == k.typed
            && |recovery| == Differences(k, initial)
  {
    hide Undoes, Replay, Releasing, Pressing, Start;
    var prefix := events[..if sent < |events| then sent else |events|];
    var k := Replay(Start(initial), prefix);
    var downKeys, downUnicode, capsLock := TrackPrefix(prefix, initial);
    recovery := ReleaseUnits(k, downUnicode);
    var noUnits := k.(units := multiset{});
    recovery := ReleaseKeys(k, recovery, noUnits, initial.modifiers);
    var at := Releasing(noUnits, downKeys.Keys - initial.modifiers);
    AfterReleasing(noUnits, initial.modifiers);
    if capsLock != initial.capsLock {
      recovery := ClickCaps(k, recovery, at);
      at := at.(capsLock := !at.capsLock);
    }
    recovery := PressDesired(k, recovery, at, initial.modifiers);
    AfterPressing(at, initial.modifiers);
    assert initial.modifiers - at.held.Keys == initial.modifiers - k.held.Keys;
    UndoneIs(k, recovery, Pressing(at, initial.modifiers - at.held.Keys));
  }

  lemma AfterReleasing(k: Keyboard, desired: Modifiers)
    ensures var after := Releasing(k, k.held.Keys - desired);
            && after.held.Keys == k.held.Keys * desired && VK_CAPITAL !in after.held
            && after == k.(held := after.held)
  {
  }

  lemma AfterPressing(k: Keyboard, desired: Modifiers)
    requires k.held.Keys <= desired
    ensures var after := Pressing(k, desired - k.held.Keys);
            after.held.Keys == desired && after == k.(held := after.held)
  {
  }

  lemma UndoneIs(k: Keyboard, recovery: seq<KeyEvent>, after: Keyboard)
    requires Undoes(k, recovery, after)
    ensures Replay(k, recovery) == after
  {
  }

  /** For a disciplined stream that leaves the keyboard as found, every cut is at most six
      differences away, the empty and the full prefix none, and what was typed is a prefix of what
      the whole stream types. */
  lemma CutsAreCheap(initial: InitialState, events: seq<KeyEvent>, typed: seq<Stroke>, n: nat)
    requires Reaches(Start(initial), events, initial.modifiers, initial.capsLock, typed) && n <= |events|
    ensures var k := Replay(Start(initial), events[..n]);
            && Differences(k, initial) <= 6
            && (n == 0 || n == |events| ==> Differences(k, initial) == 0)
            && k.typed <= typed
  {
    hide Replay, Disciplined, OneAtATime, Differences, Holding, Start;
    var start := Start(initial);
    DisciplinedPrefix(start, events, n);
    TypedGrows(start, events, n);
    FewDifferences(Replay(start, events[..n]), initial);
    NoDifferences(initial, typed);
    HoldingTyped(initial.modifiers, initial.capsLock, typed);
    if n == 0 {
      ReplayNothing(start);
      assert events[..n] == [];
    } else if n == |events| {
      assert events[..n] == events;
    }
  }

  lemma HoldingTyped(held: Modifiers, capsLock: bool, typed: seq<Stroke>)
    ensures Holding(held, capsLock, typed).typed == typed
  {
  }

  lemma ReplayNothing(k: Keyboard)
    ensures Replay(k, []) == k
  {
  }

  /** One ordinary key or code unit, three modifiers and the caps lock. */
  lemma FewDifferences(k: Keyboard, initial: InitialState)
    requires OneAtATime(k)
    ensures Differences(k, initial) <= 6
  {
    HeldModifierDifferences(k.held.Keys, initial.modifiers);
  }

  lemma NoDifferences(initial: InitialState, typed: seq<Stroke>)
    ensures Differences(Start(initial), initial) == 0
    ensures Differences(Holding(initial.modifiers, initial.capsLock, typed), initial) == 0
  {
    assert Start(initial).held.Keys == initial.modifiers;
    assert Holding(initial.modifiers, initial.capsLock, typed).held.Keys == initial.modifiers;
  }

  lemma HeldModifierDifferences(held: set<nat>, desired: Modifiers)
    ensures |held - desired| + |desired - held| <= |held - {VK_CONTROL, VK_MENU, VK_SHIFT}| + 3
  {
    var all := {VK_CONTROL, VK_MENU, VK_SHIFT};
    var extra, missing := held * all - desired, desired - held;
    assert held - desired == (held - all) + extra;
    SubsetSize(extra + missing, all);
    assert |extra + missing| == |extra| + |missing|;
  }

  lemma SubsetSize(small: set<nat>, large: set<nat>)
    requires small <= large
    ensures |small| <= |large|
  {
    assert large == small + (large - small);
  }
}
