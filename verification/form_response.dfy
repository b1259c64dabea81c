/** Form dialogs: the choices they are configured with, and the answers they accept. */
module FormResponse {
  import opened Characters
  import opened Wrappers

  // ---- values ----------------------------------------------------------------------

  /** JSON as far as forms look at it; floating-point numbers as reals. */
  datatype Json =
    | String(text: string)
    | Bool(b: bool)
    | Integer(n: int)
    | Float(r: real)
    | List(items: seq<Json>)
    | Object(members: map<string, Json>)
    | Null

  function AsText(value: Option<Json>): Option<string> {
    if value.Some? && value.value.String? then Some(value.value.text) else None
  }

  function AsNumber(value: Json): Option<real> {
    match value case Integer(n) => Some(n as real) case Float(r) => Some(r) case _ => None
  }

  function AsList(value: Option<Json>): Option<seq<Json>> {
    if value.Some? && value.value.List? then Some(value.value.items) else None
  }

  const MAX_DEFAULT_VALUE_CHARS := 16384
  const MAX_CHOICE_COUNT := 100
  const MAX_CHOICE_VALUE_CHARS := 512
  const MAX_CHOICE_LABEL_CHARS := 512
  const MAX_SAFE_INTEGER := 9007199254740991

  // ---- colors ----------------------------------------------------------------------

  datatype Rgb = Rgb(red: nat, green: nat, blue: nat)

  predicate ValidRgb(color: Rgb) {
    color.red < 256 && color.green < 256 && color.blue < 256
  }

  function UpperHex(n: nat): char
    requires n < 16
  {
    if n < 10 then ('0' as int + n) as char else ('A' as int + n - 10) as char
  }

  function HexValue(c: char): Option<nat> {
    if '0' <= c <= '9' then Some(c as int - '0' as int)
    else if 'a' <= c <= 'f' then Some(c as int - 'a' as int + 10)
    else if 'A' <= c <= 'F' then Some(c as int - 'A' as int + 10)
    else None
  }

  function ColorText(color: Rgb): (text: string)
    requires ValidRgb(color)
    ensures |text| == 7
  {
    ['#', UpperHex(color.red / 16), UpperHex(color.red % 16), UpperHex(color.green / 16), UpperHex(color.green % 16),
     UpperHex(color.blue / 16), UpperHex(color.blue % 16)]
  }

  function Trim(text: string): string
    decreases |text|
  {
    if text == [] then []
    else if White(text[0]) then Trim(text[1..])
    else if White(text[|text| - 1]) then Trim(text[..|text| - 1])
    else text
  }

  predicate IsHex(text: string) {
    forall i :: 0 <= i < |text| ==> HexValue(text[i]).Some?
  }

  function HexPair(high: char, low: char): nat {
    16 * (if HexValue(high).Some? then HexValue(high).value else 0)
        + (if HexValue(low).Some? then HexValue(low).value else 0)
  }

  /** `functional` reads the `rgb(r, g, b)` form. */
  function ParseColor(text: string, functional: string -> Option<Rgb>): Option<Rgb> {
    var trimmed := Trim(text);
    if |trimmed| == 7 && trimmed[0] == '#' && IsHex(trimmed[1..])
    then Some(Rgb(HexPair(trimmed[1], trimmed[2]), HexPair(trimmed[3], trimmed[4]), HexPair(trimmed[5], trimmed[6])))
    else functional(trimmed)
  }

  lemma HexRoundTrip(n: nat)
    requires n < 256
    ensures HexPair(UpperHex(n / 16), UpperHex(n % 16)) == n
    ensures HexValue(UpperHex(n / 16)).Some? && HexValue(UpperHex(n % 16)).Some?
    ensures !White(UpperHex(n % 16))
  {
  }

  lemma ColorRoundTrip(color: Rgb, functional: string -> Option<Rgb>)
    requires ValidRgb(color)
    ensures ParseColor(ColorText(color), functional) == Some(color)
  {
    HexRoundTrip(color.red);
    HexRoundTrip(color.green);
    HexRoundTrip(color.blue);
    var text := ColorText(color);
    hide HexPair, HexValue, UpperHex;
    assert Trim(text) == text;
    assert text[1..] == [text[1], text[2], text[3], text[4], text[5], text[6]];
  }

  ghost predicate AllWhite(text: string) {
    forall i :: 0 <= i < |text| ==> text[i] as int in WHITE_SPACE
  }

  /** Trimming takes white space off both ends, and all of it. */
  ghost predicate IsTrimmed(text: string, kept: string) {
    && (exists before, after :: text == before + kept + after && AllWhite(before) && AllWhite(after))
    && (kept == [] || (kept[0] as int !in WHITE_SPACE && kept[|kept| - 1] as int !in WHITE_SPACE))
  }

  lemma {:induction false} TrimMeans(text: string)
    ensures IsTrimmed(text, Trim(text))
    decreases |text|
  {
    hide IsTrimmed, White;
    if text == [] {
      NothingToTrim(text);
    } else if White(text[0]) {
      TrimMeans(text[1..]);
      WhiteIff(text[0]);
      TrimmedBefore(text, Trim(text[1..]));
    } else if White(text[|text| - 1]) {
      TrimMeans(text[..|text| - 1]);
      WhiteIff(text[|text| - 1]);
      TrimmedAfter(text, Trim(text[..|text| - 1]));
    } else {
      WhiteIff(text[0]);
      WhiteIff(text[|text| - 1]);
      NothingToTrim(text);
    }
  }

  lemma NothingToTrim(text: string)
    requires text == [] || (text[0] as int !in WHITE_SPACE && text[|text| - 1] as int !in WHITE_SPACE)
    ensures IsTrimmed(text, text)
  {
    assert text == [] + text + [] && AllWhite([]);
  }

  lemma TrimmedBefore(text: string, kept: string)
    requires text != [] && text[0] as int in WHITE_SPACE && IsTrimmed(text[1..], kept)
    ensures IsTrimmed(text, kept)
  {
    hide AllWhite;
    var before, after :| text[1..] == before + kept + after && AllWhite(before) && AllWhite(after);
    assert text == ([text[0]] + before) + kept + after;
    OneMoreWhite(text[0], before);
  }

  lemma TrimmedAfter(text: string, kept: string)
    requires text != [] && text[|text| - 1] as int in WHITE_SPACE && IsTrimmed(text[..|text| - 1], kept)
    ensures IsTrimmed(text, kept)
  {
    hide AllWhite;
    var init, last := text[..|text| - 1], text[|text| - 1];
    var before, after :| init == before + kept + after && AllWhite(before) && AllWhite(after);
    assert text == before + kept + (after + [last]);
    OneMoreWhite(last, after);
  }

  lemma OneMoreWhite(c: char, white: string)
    requires c as int in WHITE_SPACE && AllWhite(white)
    ensures AllWhite([c] + white) && AllWhite(white + [c])
  {
  }

  /** A color in hexadecimal, its letters in either case. */
  ghost predicate Spells(text: string, color: Rgb)
    requires ValidRgb(color)
  {
    && |text| == 7
    && forall i :: 0 <= i < 7 ==> SameHex(text[i], ColorText(color)[i])
  }

  ghost predicate SameHex(c: char, upper: char) {
    c == upper || ('A' <= upper <= 'F' && c as int == upper as int + 32)
  }

  lemma SameHexMeans(c: char, n: nat)
    requires n < 16
    ensures SameHex(c, UpperHex(n)) <==> HexValue(c) == Some(n)
  {
  }

  /** Text that spells a color in hexadecimal reads as that color; any other text is read in the other form. */
  lemma ColorReads(text: string, functional: string -> Option<Rgb>)
    ensures forall color | ValidRgb(color) && Spells(Trim(text), color) :: ParseColor(text, functional) == Some(color)
    ensures (forall color | ValidRgb(color) :: !Spells(Trim(text), color)) ==>
              ParseColor(text, functional) == functional(Trim(text))
  {
    var trimmed := Trim(text);
    forall color | ValidRgb(color) && Spells(trimmed, color)
      ensures ParseColor(text, functional) == Some(color)
    {
      SpelledReads(text, functional, color);
    }
    if |trimmed| == 7 && trimmed[0] == '#' && IsHex(trimmed[1..]) {
      HexSpells(trimmed);
    }
  }

  lemma SpelledReads(text: string, functional: string -> Option<Rgb>, color: Rgb)
    requires ValidRgb(color) && Spells(Trim(text), color)
    ensures ParseColor(text, functional) == Some(color)
  {
    var trimmed := Trim(text);
    hide HexValue, UpperHex, SameHex, Trim;
    SpelledDigit(trimmed, color, 1, color.red / 16);
    SpelledDigit(trimmed, color, 2, color.red % 16);
    SpelledDigit(trimmed, color, 3, color.green / 16);
    SpelledDigit(trimmed, color, 4, color.green % 16);
    SpelledDigit(trimmed, color, 5, color.blue / 16);
    SpelledDigit(trimmed, color, 6, color.blue % 16);
    assert trimmed[0] == '#' by {
      assert SameHex(trimmed[0], ColorText(color)[0]);
      StartsHash(trimmed[0]);
    }
    assert trimmed[1..] == [trimmed[1], trimmed[2], trimmed[3], trimmed[4], trimmed[5], trimmed[6]];
  }

  lemma StartsHash(c: char)
    requires SameHex(c, '#')
    ensures c == '#'
  {
  }

  lemma SpelledDigit(text: string, color: Rgb, i: nat, n: nat)
    requires ValidRgb(color) && Spells(text, color) && 1 <= i < 7 && n < 16 && ColorText(color)[i] == UpperHex(n)
    ensures HexValue(text[i]) == Some(n)
  {
    hide ColorText, HexValue, UpperHex, SameHex;
    assert SameHex(text[i], ColorText(color)[i]);
    SameHexMeans(text[i], n);
  }

  lemma HexSpells(text: string)
    requires |text| == 7 && text[0] == '#' && IsHex(text[1..])
    ensures exists color :: ValidRgb(color) && Spells(text, color)
  {
    hide DigitAt, IsHex, SameHex, UpperHex, Spells;
    var color := Rgb(16 * DigitAt(text, 0) + DigitAt(text, 1), 16 * DigitAt(text, 2) + DigitAt(text, 3),
                     16 * DigitAt(text, 4) + DigitAt(text, 5));
    DigitsOf(DigitAt(text, 0), DigitAt(text, 1));
    DigitsOf(DigitAt(text, 2), DigitAt(text, 3));
    DigitsOf(DigitAt(text, 4), DigitAt(text, 5));
    DigitsSpell(text, color);
    assert Spells(text, color);
  }

  lemma DigitsSpell(text: string, color: Rgb)
    requires |text| == 7 && text[0] == '#' && IsHex(text[1..]) && ValidRgb(color)
    requires color.red / 16 == DigitAt(text, 0) && color.red % 16 == DigitAt(text, 1)
    requires color.green / 16 == DigitAt(text, 2) && color.green % 16 == DigitAt(text, 3)
    requires color.blue / 16 == DigitAt(text, 4) && color.blue % 16 == DigitAt(text, 5)
    ensures Spells(text, color)
  {
    hide DigitAt, IsHex, SameHex, UpperHex;
    HashIsSame();
    for i := 0 to 6
      invariant forall k :: 0 <= k < i ==> SameHex(text[k + 1], UpperHex(DigitAt(text, k)))
    {
      DigitIs(text, i);
    }
  }

  lemma DigitIs(text: string, i: nat)
    requires |text| == 7 && IsHex(text[1..]) && i < 6
    ensures SameHex(text[i + 1], UpperHex(DigitAt(text, i)))
  {
    assert HexValue(text[1..][i]).Some?;
    hide SameHex, UpperHex, IsHex;
    SameHexMeans(text[i + 1], DigitAt(text, i));
  }

  lemma HashIsSame()
    ensures SameHex('#', '#')
  {
  }

  lemma DigitsOf(high: nat, low: nat)
    requires high < 16 && low < 16
    ensures (16 * high + low) / 16 == high && (16 * high + low) % 16 == low && 16 * high + low < 256
  {
  }

  function DigitAt(text: string, i: nat): (n: nat)
    requires |text| == 7 && i < 6
    ensures n < 16
  {
    var value := HexValue(text[i + 1]);
    if value.Some? && value.value < 16 then value.value else 0
  }

  // ---- fields ----------------------------------------------------------------------

  datatype Choice = Choice(key: string, display: string)

  datatype TextKind = Plain | Secret | Multiline | Date | Time | Datetime | Color | SingleFile | Folder

  datatype Field =
    | TextField(key: string, kind: TextKind, required: bool)
    | NumberField(key: string, whole: bool, required: bool)
    | Slider(key: string, minimum: real, maximum: real, step: real, required: bool)
    | Checkbox(key: string, required: bool)
    | OneChoice(key: string, choices: seq<Choice>, required: bool)
    | MultiChoice(key: string, choices: seq<Choice>, required: bool)
    | ManyFiles(key: string, required: bool)
    | Decoration

  /** The parsers of dates, times and timestamps, of `rgb(…)` colors, and the slider's step test. */
  datatype Readers = Readers(
    date: string -> bool, time: string -> bool, timestamp: string -> bool,
    functionalColor: string -> Option<Rgb>, aligned: (real, real, real) -> bool)

  datatype Problem =
    | NotText | NotList | NotBoolean | NotNumber | NotWhole | Required | TooLong | BadDate | BadTime | BadTimestamp
    | BadColor | OutOfRange | OffStep | UnknownChoice | RepeatedChoice
    | UnsupportedButton | UnexpectedData | UnknownField

  /** What a field makes of the value submitted for it: a canonical value, nothing, or a problem. */
  type Outcome = Result<Option<Json>, Problem>

  function CheckText(r: Readers, kind: TextKind, required: bool, value: Option<Json>): Outcome {
    var text := AsText(value);
    if text.None? then Err(NotText)
    else if required && text.value == "" then Err(Required)
    else if |text.value| > MAX_DEFAULT_VALUE_CHARS then Err(TooLong)
    else if kind.Date? && text.value != "" && !r.date(text.value) then Err(BadDate)
    else if kind.Time? && text.value != "" && !r.time(text.value) then Err(BadTime)
    else if kind.Datetime? && text.value != "" && !r.timestamp(text.value) then Err(BadTimestamp)
    else if kind.Color? then
      var color := ParseColor(text.value, r.functionalColor);
      if color.None? || !ValidRgb(color.value) then Err(BadColor) else Ok(Some(String(ColorText(color.value))))
    else Ok(Some(String(text.value)))
  }

  predicate SafeInteger(value: real) {
    value.Floor as real == value && -MAX_SAFE_INTEGER <= value.Floor <= MAX_SAFE_INTEGER
  }

  function CheckNumber(whole: bool, required: bool, value: Option<Json>): Outcome {
    if value.None? then (if required then Err(Required) else Ok(None)) else
    var number := AsNumber(value.value);
    if number.None? then Err(NotNumber)
    else if whole then (if SafeInteger(number.value) then Ok(Some(Integer(number.value.Floor))) else Err(NotWhole))
    else Ok(Some(Float(number.value)))
  }

  function CheckSlider(r: Readers, minimum: real, maximum: real, step: real, required: bool,
                       value: Option<Json>): Outcome {
    if value.None? then (if required then Err(Required) else Ok(None)) else
    var number := AsNumber(value.value);
    if number.None? then Err(NotNumber)
    else if !(minimum <= number.value <= maximum) then Err(OutOfRange)
    else if !r.aligned(number.value, minimum, step) then Err(OffStep)
    else Ok(Some(Float(number.value)))
  }

  function CheckBox(required: bool, value: Option<Json>): Outcome {
    if value.None? || !value.value.Bool? then Err(NotBoolean)
    else if required && !value.value.b then Err(Required)
    else Ok(Some(value.value))
  }

  predicate HasChoice(choices: seq<Choice>, key: string) {
    exists i :: 0 <= i < |choices| && choices[i].key == key
  }

  function CheckOneChoice(choices: seq<Choice>, required: bool, value: Option<Json>): Outcome {
    var text := AsText(value);
    if text.None? then Err(NotText)
    else if required && text.value == "" then Err(Required)
    else if text.value != "" && !HasChoice(choices, text.value) then Err(UnknownChoice)
    else Ok(Some(String(text.value)))
  }

  function Strings(items: seq<Json>): Option<seq<string>> {
    if forall i :: 0 <= i < |items| ==> items[i].String?
    then Some(seq(|items|, i requires 0 <= i < |items| && items[i].String? => items[i].text))
    else None
  }

  function JsonStrings(texts: seq<string>): seq<Json> {
    seq(|texts|, i requires 0 <= i < |texts| => String(texts[i]))
  }

  ghost predicate Distinct(texts: seq<string>) {
    forall i, j :: 0 <= i < j < |texts| ==> texts[i] != texts[j]
  }

  function SetOf(texts: seq<string>): set<string> {
    set i | 0 <= i < |texts| :: texts[i]
  }

  /** The keys of the chosen, in the order they are configured. */
  function InConfiguredOrder(choices: seq<Choice>, chosen: set<string>): seq<string> {
    if choices == [] then []
    else
      var init := InConfiguredOrder(choices[..|choices| - 1], chosen);
      var last := choices[|choices| - 1].key;
      if last in chosen then init + [last] else init
  }

  function CheckMultiChoice(choices: seq<Choice>, required: bool, value: Option<Json>): Outcome {
    var items := AsList(value);
    if items.None? then Err(NotList) else
    var selected := Strings(items.value);
    if selected.None? then Err(NotText) else
    var chosen := SetOf(selected.value);
    if |chosen| != |selected.value| then Err(RepeatedChoice)
    else if required && selected.value == [] then Err(Required)
    else if exists key :: key in chosen && !HasChoice(choices, key) then Err(UnknownChoice)
    else Ok(Some(List(JsonStrings(InConfiguredOrder(choices, chosen)))))
  }

  function CheckFiles(required: bool, value: Option<Json>): Outcome {
    var items := AsList(value);
    if items.None? then Err(NotList)
    else if required && items.value == [] then Err(Required)
    else
      var paths := Strings(items.value);
      if paths.None? then Err(NotText)
      else if exists i :: 0 <= i < |paths.value| && |paths.value[i]| > MAX_DEFAULT_VALUE_CHARS then Err(TooLong)
      else Ok(Some(List(JsonStrings(paths.value))))
  }

  function CheckField(r: Readers, field: Field, value: Option<Json>): Outcome {
    match field
    case TextField(_, kind, required) => CheckText(r, kind, required, value)
    case NumberField(_, whole, required) => CheckNumber(whole, required, value)
    case Slider(_, minimum, maximum, step, required) => CheckSlider(r, minimum, maximum, step, required, value)
    case Checkbox(_, required) => CheckBox(required, value)
    case OneChoice(_, choices, required) => CheckOneChoice(choices, required, value)
    case MultiChoice(_, choices, required) => CheckMultiChoice(choices, required, value)
    case ManyFiles(_, required) => CheckFiles(required, value)
    case Decoration => Ok(None)
  }

  // ---- one field: canonical values -------------------------------------------------

  ghost predicate UniqueChoices(choices: seq<Choice>) {
    forall i, j :: 0 <= i < j < |choices| ==> choices[i].key != choices[j].key
  }

  lemma {:induction false} DistinctCount(texts: seq<string>)
    ensures |SetOf(texts)| <= |texts| && (|SetOf(texts)| == |texts| <==> Distinct(texts))
  {
    if texts == [] {
      assert SetOf(texts) == {};
    } else {
      var init := texts[..|texts| - 1];
      var last := texts[|texts| - 1];
      DistinctCount(init);
      assert texts == init + [last];
      assert SetOf(texts) == SetOf(init) + {last} by {
        forall x ensures x in SetOf(texts) <==> x in SetOf(init) + {last} {
          if x in SetOf(init) {
            var i :| 0 <= i < |init| && init[i] == x;
            assert texts[i] == x;
          }
          assert texts[|init|] == last;
        }
      }
      if last in SetOf(init) {
        var i :| 0 <= i < |init| && init[i] == last;
        assert SetOf(texts) == SetOf(init) && texts[i] == texts[|init|];
      }
    }
  }

  /** The list in configured order holds exactly the chosen configured keys, each once, in that order. */
  lemma {:induction false} ConfiguredOrderMeans(choices: seq<Choice>, chosen: set<string>)
    ensures forall key :: key in InConfiguredOrder(choices, chosen) <==> key in chosen && HasChoice(choices, key)
    ensures UniqueChoices(choices) ==> Distinct(InConfiguredOrder(choices, chosen))
  {
    if choices != [] {
      var init := choices[..|choices| - 1];
      var last := choices[|choices| - 1];
      ConfiguredOrderMeans(init, chosen);
      forall key ensures HasChoice(choices, key) <==> HasChoice(init, key) || last.key == key {
        if HasChoice(init, key) {
          var i :| 0 <= i < |init| && init[i].key == key;
          assert choices[i].key == key;
        }
        if last.key == key {
          assert choices[|init|].key == key;
        }
      }
      if UniqueChoices(choices) {
        assert UniqueChoices(init) && !HasChoice(init, last.key);
      }
    }
  }

  lemma StringsRoundTrip(texts: seq<string>)
    ensures Strings(JsonStrings(texts)) == Some(texts)
  {
    var back := Strings(JsonStrings(texts));
    assert back.Some? && back.value == texts;
  }

  lemma MultiChoiceIsCanonical(choices: seq<Choice>, required: bool, value: Option<Json>)
    requires UniqueChoices(choices) && CheckMultiChoice(choices, required, value).Ok?
    ensures var after := CheckMultiChoice(choices, required, value).value;
            CheckMultiChoice(choices, required, after) == Ok(after)
    ensures var submitted := Strings(AsList(value).value).value;
            var kept := InConfiguredOrder(choices, SetOf(submitted));
            && CheckMultiChoice(choices, required, value) == Ok(Some(List(JsonStrings(kept))))
            && SetOf(kept) == SetOf(submitted) && |kept| == |submitted| && (required ==> kept != [])
  {
    var submitted := Strings(AsList(value).value).value;
    var chosen := SetOf(submitted);
    var kept := InConfiguredOrder(choices, chosen);
    ConfiguredOrderMeans(choices, chosen);
    hide InConfiguredOrder;
    forall key ensures key in SetOf(kept) <==> key in chosen {
      if key in chosen {
        assert key in kept;
        var i :| 0 <= i < |kept| && kept[i] == key;
      }
    }
    assert SetOf(kept) == chosen;
    DistinctCount(kept);
    StringsRoundTrip(kept);
  }

  lemma TextIsCanonical(r: Readers, kind: TextKind, required: bool, value: Option<Json>)
    requires CheckText(r, kind, required, value).Ok?
    ensures var after := CheckText(r, kind, required, value).value; CheckText(r, kind, required, after) == Ok(after)
  {
    var text := AsText(value).value;
    if kind.Color? {
      var color := ParseColor(text, r.functionalColor).value;
      ColorRoundTrip(color, r.functionalColor);
    }
  }

  lemma NumberIsCanonical(whole: bool, required: bool, value: Option<Json>)
    requires CheckNumber(whole, required, value).Ok?
    ensures var after := CheckNumber(whole, required, value).value; CheckNumber(whole, required, after) == Ok(after)
  {
  }

  lemma FilesAreCanonical(required: bool, value: Option<Json>)
    requires CheckFiles(required, value).Ok?
    ensures var after := CheckFiles(required, value).value; CheckFiles(required, after) == Ok(after)
  {
    var paths := Strings(AsList(value).value).value;
    StringsRoundTrip(paths);
  }

  ghost predicate WellConfigured(field: Field) {
    field.MultiChoice? ==> UniqueChoices(field.choices)
  }

  /** Checking a canonical value again accepts it and leaves it as it is. */
  lemma FieldIsCanonical(r: Readers, field: Field, value: Option<Json>)
    requires WellConfigured(field) && CheckField(r, field, value).Ok?
    ensures var after := CheckField(r, field, value).value; CheckField(r, field, after) == Ok(after)
  {
    hide CheckText, CheckNumber, CheckMultiChoice, CheckFiles;
    match field
    case TextField(_, kind, required) => TextIsCanonical(r, kind, required, value);
    case NumberField(_, whole, required) => NumberIsCanonical(whole, required, value);
    case MultiChoice(_, choices, required) => MultiChoiceIsCanonical(choices, required, value);
    case ManyFiles(_, required) => FilesAreCanonical(required, value);
    case _ =>
  }

  /** What a required field demands of the value it keeps. */
  ghost predicate Filled(field: Field, value: Option<Json>) {
    match field
    case TextField(_, _, _) => value.Some? && value.value.String? && value.value.text != ""
    case OneChoice(_, choices, _) => value.Some? && value.value.String? && HasChoice(choices, value.value.text)
    case NumberField(_, _, _) => value.Some? && AsNumber(value.value).Some?
    case Slider(_, _, _, _, _) => value.Some? && AsNumber(value.value).Some?
    case Checkbox(_, _) => value == Some(Bool(true))
    case MultiChoice(_, _, _) => value.Some? && value.value.List? && value.value.items != []
    case ManyFiles(_, _) => value.Some? && value.value.List? && value.value.items != []
    case Decoration => true
  }

  lemma RequiredIsFilled(r: Readers, field: Field, value: Option<Json>)
    requires WellConfigured(field) && CheckField(r, field, value).Ok? && !field.Decoration? && field.required
    ensures Filled(field, CheckField(r, field, value).value)
  {
    if field.MultiChoice? {
      MultiChoiceIsCanonical(field.choices, true, value);
    }
  }

  // ---- one field: what it accepts and what it keeps ---------------------------------

  ghost predicate ReadsAsKind(r: Readers, kind: TextKind, text: string) {
    match kind
    case Date => text == "" || r.date(text)
    case Time => text == "" || r.time(text)
    case Datetime => text == "" || r.timestamp(text)
    case Color =>
      ParseColor(text, r.functionalColor).Some? && ValidRgb(ParseColor(text, r.functionalColor).value)
    case _ => true
  }

  ghost predicate Whole(x: real) {
    exists n: int {:trigger Integer(n)} :: n as real == x && -9007199254740991 <= n <= 9007199254740991
  }

  ghost predicate Given(value: Option<Json>, texts: seq<string>) {
    value.Some? && value.value.List? && |value.value.items| == |texts|
    && forall i :: 0 <= i < |texts| ==> value.value.items[i] == String(texts[i])
  }

  /** What a field asks of the value submitted for it. */
  ghost predicate Fits(r: Readers, field: Field, value: Option<Json>) {
    match field
    case TextField(_, kind, required) =>
      && value.Some? && value.value.String? && |value.value.text| <= 16384
      && (required ==> value.value.text != "") && ReadsAsKind(r, kind, value.value.text)
    case NumberField(_, whole, required) =>
      if value.None? then !required
      else AsNumber(value.value).Some? && (whole ==> Whole(AsNumber(value.value).value))
    case Slider(_, minimum, maximum, step, required) =>
      if value.None? then !required
      else
        && AsNumber(value.value).Some? && minimum <= AsNumber(value.value).value <= maximum
        && r.aligned(AsNumber(value.value).value, minimum, step)
    case Checkbox(_, required) => value == Some(Bool(true)) || (!required && value == Some(Bool(false)))
    case OneChoice(_, choices, required) =>
      && value.Some? && value.value.String?
      && (if value.value.text == "" then !required else HasChoice(choices, value.value.text))
    case MultiChoice(_, choices, required) =>
      exists keys :: Given(value, keys) && Distinct(keys) && (required ==> keys != [])
                     && forall i :: 0 <= i < |keys| ==> HasChoice(choices, keys[i])
    case ManyFiles(_, required) =>
      exists paths :: Given(value, paths) && (required ==> paths != [])
                      && forall i :: 0 <= i < |paths| ==> |paths[i]| <= 16384
    case Decoration => true
  }

  /** Later keys belong to later choices. */
  ghost predicate InOrder(choices: seq<Choice>, keys: seq<string>) {
    forall i, j :: 0 <= i < j < |keys| ==> Precedes(choices, keys[i], keys[j])
  }

  ghost predicate Precedes(choices: seq<Choice>, first: string, second: string) {
    exists a, b :: 0 <= a < b < |choices| && choices[a].key == first && choices[b].key == second
  }

  /** What a field keeps of a value that fits it. */
  ghost predicate Keeps(r: Readers, field: Field, value: Option<Json>, kept: Option<Json>) {
    match field
    case TextField(_, kind, _) =>
      if kind.Color? then
        && value.Some? && value.value.String? && kept.Some? && kept.value.String?
        && |kept.value.text| == 7 && kept.value.text[0] == '#'
        && (forall i :: 1 <= i < 7 ==> kept.value.text[i] in "0123456789ABCDEF")
        && ParseColor(kept.value.text, r.functionalColor) == ParseColor(value.value.text, r.functionalColor)
      else kept == value
    case NumberField(_, whole, _) =>
      if value.None? then kept.None?
      else
        && kept.Some? && AsNumber(kept.value) == AsNumber(value.value)
        && (if whole then kept.value.Integer? else kept.value.Float?)
    case Slider(_, _, _, _, _) =>
      if value.None? then kept.None?
      else kept.Some? && kept.value.Float? && AsNumber(kept.value) == AsNumber(value.value)
    case MultiChoice(_, choices, _) =>
      exists keys, given :: Given(kept, keys) && Given(value, given) && InOrder(choices, keys)
                            && |keys| == |given| && forall key :: key in keys <==> key in given
    case Decoration => kept.None?
    case _ => kept == value
  }

  /** Every problem a field reports is one its value has. */
  ghost predicate Explains(r: Readers, field: Field, value: Option<Json>, problem: Problem) {
    match problem
    case NotText =>
      if field.TextField? || field.OneChoice? then AsText(value).None?
      else
        && (field.MultiChoice? || field.ManyFiles?) && AsList(value).Some?
        && exists i :: 0 <= i < |AsList(value).value| && !AsList(value).value[i].String?
    case NotList => (field.MultiChoice? || field.ManyFiles?) && AsList(value).None?
    case NotBoolean => field.Checkbox? && !(value.Some? && value.value.Bool?)
    case NotNumber => (field.NumberField? || field.Slider?) && value.Some? && AsNumber(value.value).None?
    case NotWhole =>
      && field.NumberField? && field.whole && value.Some? && AsNumber(value.value).Some?
      && !Whole(AsNumber(value.value).value)
    case Required =>
      && !field.Decoration? && field.required
      && (value == None || value == Some(String("")) || value == Some(List([])) || value == Some(Bool(false)))
    case TooLong =>
      || (field.TextField? && AsText(value).Some? && |AsText(value).value| > 16384)
      || (field.ManyFiles? && AsList(value).Some?
          && exists i :: 0 <= i < |AsList(value).value| && AsList(value).value[i].String?
                         && |AsList(value).value[i].text| > 16384)
    case BadDate => field.TextField? && field.kind.Date? && AsText(value).Some? && !r.date(AsText(value).value)
    case BadTime => field.TextField? && field.kind.Time? && AsText(value).Some? && !r.time(AsText(value).value)
    case BadTimestamp =>
      field.TextField? && field.kind.Datetime? && AsText(value).Some? && !r.timestamp(AsText(value).value)
    case BadColor =>
      field.TextField? && field.kind.Color? && AsText(value).Some? && !ReadsAsKind(r, Color, AsText(value).value)
    case OutOfRange =>
      && field.Slider? && value.Some? && AsNumber(value.value).Some?
      && (AsNumber(value.value).value < field.minimum || field.maximum < AsNumber(value.value).value)
    case OffStep =>
      && field.Slider? && value.Some? && AsNumber(value.value).Some?
      && !r.aligned(AsNumber(value.value).value, field.minimum, field.step)
    case UnknownChoice =>
      || (field.OneChoice? && AsText(value).Some? && !HasChoice(field.choices, AsText(value).value))
      || (field.MultiChoice? && exists keys :: Given(value, keys)
                                               && exists key :: key in keys && !HasChoice(field.choices, key))
    case RepeatedChoice => field.MultiChoice? && exists keys :: Given(value, keys) && !Distinct(keys)
    case _ => false
  }

  /** A field accepts exactly the values that fit it; of those it keeps what it should, and for every other
      value it reports a problem that the value has. */
  lemma FieldAcceptsIff(r: Readers, field: Field, value: Option<Json>)
    requires WellConfigured(field)
    ensures CheckField(r, field, value).Ok? <==> Fits(r, field, value)
    ensures CheckField(r, field, value).Ok? ==> Keeps(r, field, value, CheckField(r, field, value).value)
    ensures CheckField(r, field, value).Err? ==> Explains(r, field, value, CheckField(r, field, value).error)
  {
    hide CheckText, CheckNumber, CheckSlider, CheckMultiChoice, CheckFiles;
    match field
    case TextField(_, _, _) => TextAcceptsIff(r, field, value);
    case NumberField(_, _, _) => NumberAcceptsIff(r, field, value);
    case Slider(_, _, _, _, _) => NumberAcceptsIff(r, field, value);
    case MultiChoice(_, _, _) => MultiChoiceAcceptsIff(r, field, value);
    case ManyFiles(_, _) => FilesAcceptIff(r, field, value);
    case _ =>
  }

  lemma UpperHexIsUpper(n: nat)
    requires n < 16
    ensures UpperHex(n) in "0123456789ABCDEF"
  {
    assert UpperHex(n) == "0123456789ABCDEF"[n];
  }

  lemma ColorTextIsUpper(color: Rgb)
    requires ValidRgb(color)
    ensures forall i :: 1 <= i < 7 ==> ColorText(color)[i] in "0123456789ABCDEF"
  {
    forall n: nat | n < 16 ensures UpperHex(n) in "0123456789ABCDEF" {
      UpperHexIsUpper(n);
    }
    hide UpperHex;
  }

  lemma TextAcceptsIff(r: Readers, field: Field, value: Option<Json>)
    requires field.TextField?
    ensures CheckField(r, field, value).Ok? <==> Fits(r, field, value)
    ensures CheckField(r, field, value).Ok? ==> Keeps(r, field, value, CheckField(r, field, value).value)
    ensures CheckField(r, field, value).Err? ==> Explains(r, field, value, CheckField(r, field, value).error)
  {
    hide ParseColor, ColorText;
    if field.kind.Color? && CheckField(r, field, value).Ok? {
      var color := ParseColor(value.value.text, r.functionalColor).value;
      ColorRoundTrip(color, r.functionalColor);
      ColorTextIsUpper(color);
      assert ColorText(color)[0] == '#' by {
        ColorTextStarts(color);
      }
    }
  }

  lemma ColorTextStarts(color: Rgb)
    requires ValidRgb(color)
    ensures ColorText(color)[0] == '#'
  {
  }

  lemma SafeIntegerIsWhole(x: real)
    ensures SafeInteger(x) <==> Whole(x)
  {
    if SafeInteger(x) {
      assert Integer(x.Floor).n as real == x;
    }
  }

  lemma NumberAcceptsIff(r: Readers, field: Field, value: Option<Json>)
    requires field.NumberField? || field.Slider?
    ensures CheckField(r, field, value).Ok? <==> Fits(r, field, value)
    ensures CheckField(r, field, value).Ok? ==> Keeps(r, field, value, CheckField(r, field, value).value)
    ensures CheckField(r, field, value).Err? ==> Explains(r, field, value, CheckField(r, field, value).error)
  {
    if value.Some? && AsNumber(value.value).Some? {
      SafeIntegerIsWhole(AsNumber(value.value).value);
    }
  }

  lemma StringsGiven(value: Option<Json>)
    requires AsList(value).Some? && Strings(AsList(value).value).Some?
    ensures Given(value, Strings(AsList(value).value).value)
  {
  }

  lemma GivenStrings(value: Option<Json>, texts: seq<string>)
    requires Given(value, texts)
    ensures AsList(value).Some? && Strings(AsList(value).value) == Some(texts)
  {
    assert Strings(AsList(value).value).value == texts;
  }

  lemma GivenBack(texts: seq<string>)
    ensures Given(Some(List(JsonStrings(texts))), texts)
  {
  }

  lemma InSetOf(texts: seq<string>)
    ensures forall key :: key in SetOf(texts) <==> key in texts
  {
    forall key ensures key in SetOf(texts) <==> key in texts {
      if key in texts {
        var i :| 0 <= i < |texts| && texts[i] == key;
      }
    }
  }

  lemma {:induction false} ConfiguredOrderIsOrder(choices: seq<Choice>, chosen: set<string>)
    ensures InOrder(choices, InConfiguredOrder(choices, chosen))
  {
    if choices != [] {
      hide InOrder, HasChoice;
      var init, last := choices[..|choices| - 1], choices[|choices| - 1];
      ConfiguredOrderIsOrder(init, chosen);
      ConfiguredOrderMeans(init, chosen);
      assert choices == init + [last];
      OrderOneMore(init, InConfiguredOrder(init, chosen), last);
    } else {
      assert InConfiguredOrder(choices, chosen) == [];
    }
  }

  lemma OrderOneMore(choices: seq<Choice>, keys: seq<string>, last: Choice)
    requires InOrder(choices, keys) && forall key :: key in keys ==> HasChoice(choices, key)
    ensures InOrder(choices + [last], keys) && InOrder(choices + [last], keys + [last.key])
  {
    hide Precedes;
    forall i, j | 0 <= i < j < |keys| + 1
      ensures Precedes(choices + [last], (keys + [last.key])[i], (keys + [last.key])[j])
    {
      if j < |keys| {
        StillPrecedes(choices, last, keys[i], keys[j]);
      } else {
        assert keys[i] in keys;
        PrecedesLast(choices, last, keys[i]);
      }
    }
    forall i, j | 0 <= i < j < |keys| ensures Precedes(choices + [last], keys[i], keys[j]) {
      StillPrecedes(choices, last, keys[i], keys[j]);
    }
  }

  lemma StillPrecedes(choices: seq<Choice>, last: Choice, first: string, second: string)
    requires Precedes(choices, first, second)
    ensures Precedes(choices + [last], first, second)
  {
    var a, b :| 0 <= a < b < |choices| && choices[a].key == first && choices[b].key == second;
    var more := choices + [last];
    assert more[a].key == first && more[b].key == second;
  }

  lemma PrecedesLast(choices: seq<Choice>, last: Choice, first: string)
    requires HasChoice(choices, first)
    ensures Precedes(choices + [last], first, last.key)
  {
    var a :| 0 <= a < |choices| && choices[a].key == first;
    var more := choices + [last];
    assert more[a].key == first && more[|choices|].key == last.key;
  }

  lemma MultiChoiceAcceptsIff(r: Readers, field: Field, value: Option<Json>)
    requires field.MultiChoice? && UniqueChoices(field.choices)
    ensures CheckField(r, field, value).Ok? <==> Fits(r, field, value)
    ensures CheckField(r, field, value).Ok? ==> Keeps(r, field, value, CheckField(r, field, value).value)
    ensures CheckField(r, field, value).Err? ==> Explains(r, field, value, CheckField(r, field, value).error)
  {
    hide HasChoice, UniqueChoices, Strings, SetOf, InConfiguredOrder, InOrder, Distinct, JsonStrings;
    if AsList(value).Some? && Strings(AsList(value).value).Some? {
      var given := Strings(AsList(value).value).value;
      StringsGiven(value);
      DistinctCount(given);
      InSetOf(given);
      if CheckField(r, field, value).Ok? {
        hide Given;
        KeptInOrder(field.choices, field.required, value);
        MembersByIndex(given);
      } else {
        forall keys | Given(value, keys) ensures keys == given {
          GivenStrings(value, keys);
        }
        assert value == Some(List([])) || given != [] by {
          hide *;
          EmptyGiven(value, given);
        }
      }
    } else {
      NotStrings(value);
    }
  }

  lemma KeptInOrder(choices: seq<Choice>, required: bool, value: Option<Json>)
    requires UniqueChoices(choices) && CheckMultiChoice(choices, required, value).Ok?
    requires AsList(value).Some? && Strings(AsList(value).value).Some?
    ensures var given := Strings(AsList(value).value).value;
            && var kept := CheckMultiChoice(choices, required, value).value;
            exists keys :: Given(kept, keys) && InOrder(choices, keys)
                           && |keys| == |given| && forall key :: key in keys <==> key in given
  {
    var given := Strings(AsList(value).value).value;
    var keys := InConfiguredOrder(choices, SetOf(given));
    MultiChoiceIsCanonical(choices, required, value);
    InSetOf(given);
    InSetOf(keys);
    GivenBack(keys);
    ConfiguredOrderIsOrder(choices, SetOf(given));
    hide *;
  }

  lemma MembersByIndex(texts: seq<string>)
    ensures forall i :: 0 <= i < |texts| ==> texts[i] in texts
  {
  }

  lemma EmptyGiven(value: Option<Json>, texts: seq<string>)
    requires Given(value, texts)
    ensures texts == [] ==> value == Some(List([]))
  {
  }

  /** A list that is not all texts: it is given by no texts, and one of its items is not a text. */
  lemma NotStrings(value: Option<Json>)
    requires AsList(value).None? || Strings(AsList(value).value).None?
    ensures forall keys :: !Given(value, keys)
    ensures AsList(value).Some? ==>
              exists i :: 0 <= i < |AsList(value).value| && !AsList(value).value[i].String?
  {
    forall keys ensures !Given(value, keys) {
      if Given(value, keys) {
        GivenStrings(value, keys);
      }
    }
  }

  lemma FilesAcceptIff(r: Readers, field: Field, value: Option<Json>)
    requires field.ManyFiles?
    ensures CheckField(r, field, value).Ok? <==> Fits(r, field, value)
    ensures CheckField(r, field, value).Ok? ==> Keeps(r, field, value, CheckField(r, field, value).value)
    ensures CheckField(r, field, value).Err? ==> Explains(r, field, value, CheckField(r, field, value).error)
  {
    if AsList(value).Some? && Strings(AsList(value).value).Some? {
      var paths := Strings(AsList(value).value).value;
      StringsGiven(value);
      assert JsonStrings(paths) == AsList(value).value;
      forall others | Given(value, others) ensures others == paths {
        GivenStrings(value, others);
      }
    } else {
      NotStrings(value);
    }
  }

  // ---- the whole answer ------------------------------------------------------------

  type Values = map<string, Json>

  datatype Answer = Answer(button: string, values: Values)

  datatype FormError = FormError(key: string, problem: Problem)

  function Lookup(values: Values, key: string): Option<Json> {
    if key in values then Some(values[key]) else None
  }

  predicate Keyed(field: Field) {
    !field.Decoration?
  }

  predicate Configured(fields: seq<Field>, key: string) {
    exists i :: 0 <= i < |fields| && Keyed(fields[i]) && fields[i].key == key
  }

  /** What parsing enforces: keys are unique, and so are the choices of a field. */
  ghost predicate WellFormed(fields: seq<Field>) {
    && (forall i, j :: 0 <= i < j < |fields| && Keyed(fields[i]) && Keyed(fields[j]) ==> fields[i].key != fields[j].key)
    && (forall i :: 0 <= i < |fields| ==> WellConfigured(fields[i]))
  }

  /** The value of `key` in an accepted answer. */
  function Canonical(r: Readers, fields: seq<Field>, values: Values, key: string): Option<Json> {
    if fields == [] then None
    else
      var last := fields[|fields| - 1];
      if Keyed(last) && last.key == key && CheckField(r, last, Lookup(values, key)).Ok?
      then CheckField(r, last, Lookup(values, key)).value
      else Canonical(r, fields[..|fields| - 1], values, key)
  }

  /** Every field accepts what was submitted for it, and nothing else was submitted. */
  ghost predicate Acceptable(r: Readers, fields: seq<Field>, values: Values) {
    && (forall i ::
          0 <= i < |fields| && Keyed(fields[i]) ==> CheckField(r, fields[i], Lookup(values, fields[i].key)).Ok?)
    && (forall key | key in values :: Configured(fields, key))
  }

  /** The loop over the fields: each takes its own value out of what was submitted. */
  method NormalizeFields(r: Readers, fields: seq<Field>, values: Values)
    returns (result: Result<Values, FormError>, left: Values)
    requires WellFormed(fields)
    ensures result.Ok? <==>
              forall i :: 0 <= i < |fields| && Keyed(fields[i])
                  ==> CheckField(r, fields[i], Lookup(values, fields[i].key)).Ok?
    ensures result.Ok? ==>
              && (forall key :: Lookup(result.value, key) == Canonical(r, fields, values, key))
              && (forall key :: key in left <==> key in values && !Configured(fields, key))
    ensures result.Err? ==>
              exists i :: 0 <= i < |fields| && Keyed(fields[i]) && fields[i].key == result.error.key
                          && CheckField(r, fields[i], Lookup(values, fields[i].key)) == Err(result.error.problem)
  {
    var submitted := values;
    var normalized: Values := map[];
    var i := 0;
    assert Normalizing(r, fields, values, 0, submitted, normalized);
    hide Normalizing, CheckField, Canonical, WellFormed, Lookup;
    while i < |fields|
      invariant 0 <= i <= |fields|
      invariant Normalizing(r, fields, values, i, submitted, normalized)
    {
      var field := fields[i];
      NormalizeOneMore(r, fields, values, i, submitted, normalized);
      if Keyed(field) {
        var value := Lookup(submitted, field.key);
        submitted := submitted - {field.key};
        var outcome := CheckField(r, field, value);
        if outcome.Err? {
          return Err(FormError(field.key, outcome.error)), submitted;
        }
        if outcome.value.Some? {
          normalized := normalized[field.key := outcome.value.value];
        }
      }
      i := i + 1;
    }
    NormalizedAll(r, fields, values, submitted, normalized);
    return Ok(normalized), submitted;
  }

  /** The state of the loop: the first `i` fields have taken their values. */
  ghost predicate Normalizing(r: Readers, fields: seq<Field>, values: Values, i: nat, submitted: Values,
                              normalized: Values)
    requires i <= |fields|
  {
    && (forall k :: 0 <= k < i && Keyed(fields[k]) ==> CheckField(r, fields[k], Lookup(values, fields[k].key)).Ok?)
    && (forall key :: Lookup(normalized, key) == Canonical(r, fields[..i], values, key))
    && (forall key :: key in submitted <==> key in values && !Configured(fields[..i], key))
    && (forall key | key in submitted :: submitted[key] == values[key])
  }

  lemma NormalizedAll(r: Readers, fields: seq<Field>, values: Values, submitted: Values, normalized: Values)
    requires Normalizing(r, fields, values, |fields|, submitted, normalized)
    ensures forall i ::
              0 <= i < |fields| && Keyed(fields[i]) ==> CheckField(r, fields[i], Lookup(values, fields[i].key)).Ok?
    ensures forall key :: Lookup(normalized, key) == Canonical(r, fields, values, key)
    ensures forall key :: key in submitted <==> key in values && !Configured(fields, key)
  {
    assert fields[..|fields|] == fields;
  }

  lemma NormalizeOneMore(r: Readers, fields: seq<Field>, values: Values, i: nat, submitted: Values, normalized: Values)
    requires WellFormed(fields) && i < |fields| && Normalizing(r, fields, values, i, submitted, normalized)
    ensures Keyed(fields[i]) ==>
              var field := fields[i];
              var outcome := CheckField(r, field, Lookup(values, field.key));
              && Lookup(submitted, field.key) == Lookup(values, field.key)
              && (outcome.Ok? ==>
                    Normalizing(r, fields, values, i + 1, submitted - {field.key},
                                if outcome.value.Some? then normalized[field.key := outcome.value.value]
                                    else normalized))
    ensures !Keyed(fields[i]) ==> Normalizing(r, fields, values, i + 1, submitted, normalized)
  {
    hide CheckField, Canonical, Configured, Lookup;
    var field := fields[i];
    assert fields[..i + 1][..i] == fields[..i];
    forall key ensures Configured(fields[..i + 1], key)
        <==> Configured(fields[..i], key) || (Keyed(field) && field.key == key) {
      ConfiguredOneMore(fields, i, key);
    }
    CanonicalOneMore(r, fields, values, i);
    hide WellFormed;
    if Keyed(field) {
      NotConfiguredBefore(fields, i);
      NothingCanonicalYet(r, fields[..i], values, field.key);
      if CheckField(r, field, Lookup(values, field.key)).Ok? {
        NormalizedOneMore(r, fields, values, i, normalized);
      }
      LookupOneFewer(values, submitted, field.key);
    }
  }

  lemma LookupOneFewer(values: Values, submitted: Values, key: string)
    requires key in submitted <==> key in values
    requires key in submitted ==> submitted[key] == values[key]
    ensures Lookup(submitted, key) == Lookup(values, key)
  {
  }

  /** A field's own key gets its canonical value, and no other key changes. */
  lemma CanonicalOneMore(r: Readers, fields: seq<Field>, values: Values, i: nat)
    requires i < |fields|
    ensures var field := fields[i];
            forall key :: Canonical(r, fields[..i + 1], values, key)
                       == if Keyed(field) && field.key == key && CheckField(r, field, Lookup(values, key)).Ok?
                          then CheckField(r, field, Lookup(values, key)).value
                              else Canonical(r, fields[..i], values, key)
  {
    hide CheckField, Lookup;
    var field, more := fields[i], fields[..i + 1];
    assert more[..|more| - 1] == fields[..i];
    forall key ensures Canonical(r, more, values, key)
        == if Keyed(field) && field.key == key && CheckField(r, field, Lookup(values, key)).Ok?
           then CheckField(r, field, Lookup(values, key)).value else Canonical(r, fields[..i], values, key)
    {
    }
  }

  lemma NormalizedOneMore(r: Readers, fields: seq<Field>, values: Values, i: nat, normalized: Values)
    requires i < |fields| && Keyed(fields[i]) && CheckField(r, fields[i], Lookup(values, fields[i].key)).Ok?
    requires forall key :: Lookup(normalized, key) == Canonical(r, fields[..i], values, key)
    requires Canonical(r, fields[..i], values, fields[i].key) == None
    ensures var value := CheckField(r, fields[i], Lookup(values, fields[i].key)).value;
            var after := if value.Some? then normalized[fields[i].key := value.value] else normalized;
            forall key :: Lookup(after, key) == Canonical(r, fields[..i + 1], values, key)
  {
    hide CheckField, Canonical;
    CanonicalOneMore(r, fields, values, i);
    var value := CheckField(r, fields[i], Lookup(values, fields[i].key)).value;
    var after := if value.Some? then normalized[fields[i].key := value.value] else normalized;
    forall key ensures Lookup(after, key) == Canonical(r, fields[..i + 1], values, key) {
      assert Lookup(normalized, key) == Canonical(r, fields[..i], values, key);
      if key == fields[i].key {
        assert Canonical(r, fields[..i + 1], values, key) == value;
      }
    }
  }

  lemma ConfiguredOneMore(fields: seq<Field>, i: nat, key: string)
    requires i < |fields|
    ensures Configured(fields[..i + 1], key)
         <==> Configured(fields[..i], key) || (Keyed(fields[i]) && fields[i].key == key)
  {
    var fewer, more := fields[..i], fields[..i + 1];
    if Configured(fewer, key) {
      var k :| 0 <= k < |fewer| && Keyed(fewer[k]) && fewer[k].key == key;
      assert more[k] == fewer[k];
    }
    if Keyed(fields[i]) && fields[i].key == key {
      assert more[i] == fields[i];
    }
  }

  lemma NotConfiguredBefore(fields: seq<Field>, i: nat)
    requires WellFormed(fields) && i < |fields| && Keyed(fields[i])
    ensures !Configured(fields[..i], fields[i].key)
  {
  }

  lemma {:induction false} NothingCanonicalYet(r: Readers, fields: seq<Field>, values: Values, key: string)
    requires !Configured(fields, key)
    ensures Canonical(r, fields, values, key).None?
  {
    if fields != [] {
      assert !(Keyed(fields[|fields| - 1]) && fields[|fields| - 1].key == key);
      NothingCanonicalYet(r, fields[..|fields| - 1], values, key);
    }
  }

  lemma CanonicalIsConfigured(r: Readers, fields: seq<Field>, values: Values, key: string)
    requires Canonical(r, fields, values, key).Some?
    ensures Configured(fields, key)
  {
    if !Configured(fields, key) {
      NothingCanonicalYet(r, fields, values, key);
    }
  }

  /** Validates what a form dialog answered. */
  method ValidateFormDialogResponse(r: Readers, fields: seq<Field>, response: Answer)
    returns (result: Result<Answer, FormError>)
    requires WellFormed(fields)
    ensures response.button !in {"ok", "cancel", "timeout"} ==> result == Err(FormError("", UnsupportedButton))
    ensures response.button in {"cancel", "timeout"} ==>
              result == if response.values == map[] then Ok(response) else Err(FormError("", UnexpectedData))
    ensures response.button == "ok" ==>
              && (result.Ok? <==> Acceptable(r, fields, response.values))
              && (result.Ok? ==>
                    result.value.button == "ok" && Validates(r, fields, response.values, result.value.values))
  {
    if response.button !in {"ok", "cancel", "timeout"} {
      return Err(FormError("", UnsupportedButton));
    }
    if response.button != "ok" {
      if response.values != map[] {
        return Err(FormError("", UnexpectedData));
      }
      return Ok(response);
    }
    hide CheckField;
    var normalized, left := NormalizeFields(r, fields, response.values);
    if normalized.Err? {
      return Err(normalized.error);
    }
    if left != map[] {
      assert left.Keys != {};
      var unknown :| unknown in left;
      return Err(FormError(unknown, UnknownField));
    }
    return Ok(Answer("ok", normalized.value));
  }

  /** `after` is what an accepted answer with these values is turned into. */
  ghost predicate Validates(r: Readers, fields: seq<Field>, values: Values, after: Values) {
    Acceptable(r, fields, values) && forall key :: Lookup(after, key) == Canonical(r, fields, values, key)
  }

  lemma {:induction false} CanonicalOf(r: Readers, fields: seq<Field>, values: Values, i: nat)
    requires WellFormed(fields) && i < |fields| && Keyed(fields[i])
    requires CheckField(r, fields[i], Lookup(values, fields[i].key)).Ok?
    ensures Canonical(r, fields, values, fields[i].key) == CheckField(r, fields[i], Lookup(values, fields[i].key)).value
  {
    hide CheckField;
    if i < |fields| - 1 {
      var init := fields[..|fields| - 1];
      assert init[i] == fields[i] && WellFormed(init);
      CanonicalOf(r, init, values, i);
    }
  }

  /** An answer is accepted exactly when every field gets a value that fits it and nothing else was submitted. */
  lemma AcceptedIff(r: Readers, fields: seq<Field>, values: Values)
    requires WellFormed(fields)
    ensures Acceptable(r, fields, values)
         <==> && (forall i :: 0 <= i < |fields| && Keyed(fields[i])
                      ==> Fits(r, fields[i], Lookup(values, fields[i].key)))
              && (forall key | key in values :: Configured(fields, key))
  {
    hide CheckField, Fits, Lookup, Keeps, Explains;
    forall i | 0 <= i < |fields| && Keyed(fields[i])
      ensures CheckField(r, fields[i], Lookup(values, fields[i].key)).Ok?
           <==> Fits(r, fields[i], Lookup(values, fields[i].key))
    {
      FieldAcceptsIff(r, fields[i], Lookup(values, fields[i].key));
    }
  }

  /** An accepted answer has only configured keys; each holds what its field keeps of the submitted value;
      and every required field is filled. */
  lemma AcceptedIsCanonical(r: Readers, fields: seq<Field>, values: Values, after: Values, i: nat)
    requires WellFormed(fields) && Validates(r, fields, values, after) && i < |fields| && Keyed(fields[i])
    ensures forall key | key in after :: Configured(fields, key)
    ensures Ok(Lookup(after, fields[i].key)) == CheckField(r, fields[i], Lookup(values, fields[i].key))
    ensures Keeps(r, fields[i], Lookup(values, fields[i].key), Lookup(after, fields[i].key))
    ensures fields[i].required ==> Filled(fields[i], Lookup(after, fields[i].key))
  {
    forall key | key in after ensures Configured(fields, key) {
      assert Lookup(after, key).Some?;
      CanonicalIsConfigured(r, fields, values, key);
    }
    CanonicalOf(r, fields, values, i);
    FieldAcceptsIff(r, fields[i], Lookup(values, fields[i].key));
    hide Keeps, Fits, Explains;
    if fields[i].required {
      RequiredIsFilled(r, fields[i], Lookup(values, fields[i].key));
    }
  }

  /** Validating an accepted answer again accepts it, with the same values. */
  lemma ValidationIsIdempotent(r: Readers, fields: seq<Field>, values: Values, after: Values, again: Values)
    requires WellFormed(fields) && Validates(r, fields, values, after)
    ensures Acceptable(r, fields, after)
    ensures Validates(r, fields, after, again) ==> again == after
  {
    hide CheckField;
    forall i | 0 <= i < |fields| && Keyed(fields[i])
      ensures CheckField(r, fields[i], Lookup(after, fields[i].key)) == Ok(Lookup(after, fields[i].key))
    {
      AcceptedIsCanonical(r, fields, values, after, i);
      FieldIsCanonical(r, fields[i], Lookup(values, fields[i].key));
    }
    forall key | key in after ensures Configured(fields, key) {
      assert Lookup(after, key).Some?;
      CanonicalIsConfigured(r, fields, values, key);
    }
    if Validates(r, fields, after, again) {
      forall key ensures Lookup(again, key) == Lookup(after, key) {
        if Configured(fields, key) {
          var i :| 0 <= i < |fields| && Keyed(fields[i]) && fields[i].key == key;
          CanonicalOf(r, fields, after, i);
        } else {
          NothingCanonicalYet(r, fields, after, key);
          NothingCanonicalYet(r, fields, values, key);
        }
      }
      SameLookups(again, after);
    }
  }

  lemma SameLookups(a: Values, b: Values)
    requires forall key :: Lookup(a, key) == Lookup(b, key)
    ensures a == b
  {
    forall key ensures (key in a <==> key in b) && (key in a ==> a[key] == b[key]) {
      assert Lookup(a, key) == Lookup(b, key);
    }
  }

  // ---- configured choices ----------------------------------------------------------

  predicate UserIdentifier(text: string) {
    text != "" && forall i :: 0 <= i < |text| ==> IdentifierChar(text[i])
  }

  predicate IdentifierChar(c: char) {
    'a' <= c <= 'z' || 'A' <= c <= 'Z' || '0' <= c <= '9' || c == '-' || c == '_'
  }

  /** What one configured entry means, if it is one. */
  function ReadChoice(entry: Json): Option<Choice> {
    if !entry.Object? || entry.members.Keys != {"key", "displayValue"} then None else
    var key, display := entry.members["key"], entry.members["displayValue"];
    if !key.String? || key.text == "" || !display.String? then None else
    var shown := Trim(display.text);
    if shown == "" || |key.text| > MAX_CHOICE_VALUE_CHARS || !UserIdentifier(key.text)
        || |shown| > MAX_CHOICE_LABEL_CHARS
    then None
    else Some(Choice(key.text, shown))
  }

  /** The entry is an object of a key and a label and of nothing else, both texts: the key of 1 to 512
      letters, digits, hyphens and underscores, the label of 1 to 512 characters once trimmed. */
  ghost predicate EntryIs(entry: Json, choice: Choice) {
    && entry.Object? && |choice.key| <= 512 && 1 <= |choice.display| <= 512
    && choice.key != "" && (forall c | c in choice.key ::
                              'a' <= c <= 'z' || 'A' <= c <= 'Z' || '0' <= c <= '9' || c in "-_")
    && entry.members.Keys == {"key", "displayValue"} && entry.members["key"] == String(choice.key)
    && entry.members["displayValue"].String? && choice.display == Trim(entry.members["displayValue"].text)
  }

  lemma ReadChoiceIff(entry: Json, choice: Choice)
    ensures ReadChoice(entry) == Some(choice) <==> EntryIs(entry, choice)
  {
    hide Trim;
    if entry.Object? && entry.members.Keys == {"key", "displayValue"} {
      assert "key" in entry.members && "displayValue" in entry.members;
      UserIdentifierIff(choice.key);
      hide UserIdentifier;
    }
  }

  lemma UserIdentifierIff(text: string)
    ensures UserIdentifier(text) <==>
              text != "" && forall c | c in text :: 'a' <= c <= 'z' || 'A' <= c <= 'Z' || '0' <= c <= '9' || c in "-_"
  {
    if UserIdentifier(text) {
      forall c | c in text ensures IdentifierChar(c) {
        var i :| 0 <= i < |text| && text[i] == c;
      }
    } else if text != "" {
      var i :| 0 <= i < |text| && !IdentifierChar(text[i]);
      assert text[i] in text && text[i] !in "-_";
    }
  }

  ghost predicate UniqueDisplays(choices: seq<Choice>) {
    forall i, j :: 0 <= i < j < |choices| ==> choices[i].display != choices[j].display
  }

  /** The choices as entries would give them, one by one. */
  ghost predicate ReadsAs(entries: seq<Json>, choices: seq<Choice>) {
    |entries| == |choices| && forall i :: 0 <= i < |entries| ==> ReadChoice(entries[i]) == Some(choices[i])
  }

  /** Accepts 1 to 100 entries, each a choice, with no key and no displayed value twice; nothing else. */
  method ParseChoices(entries: seq<Json>) returns (result: Option<seq<Choice>>)
    ensures result.Some? ==>
              && 1 <= |entries| <= MAX_CHOICE_COUNT && ReadsAs(entries, result.value)
              && UniqueChoices(result.value) && UniqueDisplays(result.value)
    ensures result.None? ==>
              forall choices :: !(1 <= |entries| <= MAX_CHOICE_COUNT && ReadsAs(entries, choices)
                                  && UniqueChoices(choices) && UniqueDisplays(choices))
  {
    if |entries| == 0 || |entries| > MAX_CHOICE_COUNT {
      return None;
    }
    var displays: set<string> := {};
    var keys: set<string> := {};
    var choices: seq<Choice> := [];
    var i := 0;
    assert Reading(entries, 0, choices, keys, displays);
    hide Reading, ReadChoice, UniqueChoices, UniqueDisplays;
    while i < |entries|
      invariant 0 <= i <= |entries| && Reading(entries, i, choices, keys, displays)
    {
      var choice := ReadChoice(entries[i]);
      if choice.None? {
        return None;
      }
      ReadOneMore(entries, i, choices, keys, displays, choice.value);
      if choice.value.key in keys || choice.value.display in displays {
        return None;
      }
      keys := keys + {choice.value.key};
      displays := displays + {choice.value.display};
      choices := choices + [choice.value];
      i := i + 1;
    }
    ReadAll(entries, choices, keys, displays);
    return Some(choices);
  }

  /** The state of the loop: the first `i` entries have been read, and their keys and labels are known. */
  ghost predicate Reading(entries: seq<Json>, i: nat, choices: seq<Choice>, keys: set<string>, displays: set<string>)
    requires i <= |entries|
  {
    && ReadsAs(entries[..i], choices) && UniqueChoices(choices) && UniqueDisplays(choices)
    && (forall key :: key in keys <==> exists k :: 0 <= k < i && choices[k].key == key)
    && (forall display :: display in displays <==> exists k :: 0 <= k < i && choices[k].display == display)
  }

  lemma ReadAll(entries: seq<Json>, choices: seq<Choice>, keys: set<string>, displays: set<string>)
    requires Reading(entries, |entries|, choices, keys, displays)
    ensures ReadsAs(entries, choices) && UniqueChoices(choices) && UniqueDisplays(choices)
  {
    assert entries[..|entries|] == entries;
  }

  lemma ReadOneMore(entries: seq<Json>, i: nat, choices: seq<Choice>, keys: set<string>, displays: set<string>,
                    choice: Choice)
    requires i < |entries| && Reading(entries, i, choices, keys, displays) && ReadChoice(entries[i]) == Some(choice)
    ensures if choice.key in keys || choice.display in displays
            then forall other :: ReadsAs(entries, other) ==> !(UniqueChoices(other) && UniqueDisplays(other))
            else Reading(entries, i + 1, choices + [choice], keys + {choice.key}, displays + {choice.display})
  {
    hide ReadChoice;
    if choice.key in keys || choice.display in displays {
      Repeats(entries, choices, i, choice);
    } else {
      var after := choices + [choice];
      assert entries[..i + 1] == entries[..i] + [entries[i]];
      assert ReadsAs(entries[..i + 1], after);
      forall key ensures key in keys + {choice.key} <==> exists k :: 0 <= k < i + 1 && after[k].key == key {
        assert key == choice.key ==> after[i].key == key;
        if k :| 0 <= k < i && choices[k].key == key {
          assert after[k].key == key;
        }
      }
      forall display ensures display in displays + {choice.display}
          <==> exists k :: 0 <= k < i + 1 && after[k].display == display {
        assert display == choice.display ==> after[i].display == display;
        if k :| 0 <= k < i && choices[k].display == display {
          assert after[k].display == display;
        }
      }
    }
  }

  lemma Repeats(entries: seq<Json>, choices: seq<Choice>, i: nat, choice: Choice)
    requires i < |entries| && ReadsAs(entries[..i], choices) && ReadChoice(entries[i]) == Some(choice)
    requires exists k :: 0 <= k < i && (choices[k].key == choice.key || choices[k].display == choice.display)
    ensures forall other :: ReadsAs(entries, other) ==> !(UniqueChoices(other) && UniqueDisplays(other))
  {
    hide ReadChoice;
    forall other | ReadsAs(entries, other) ensures !(UniqueChoices(other) && UniqueDisplays(other)) {
      var k :| 0 <= k < i && (choices[k].key == choice.key || choices[k].display == choice.display);
      assert entries[..i][k] == entries[k];
      assert Some(other[k]) == Some(choices[k]) && Some(other[i]) == Some(choice);
    }
  }

  // ---- displayed values ------------------------------------------------------------

  /** The label of the first choice with this key. */
  function LabelOf(choices: seq<Choice>, key: string): Option<string> {
    if choices == [] then None
    else if choices[0].key == key then Some(choices[0].display)
    else LabelOf(choices[1..], key)
  }

  function KeyOf(choices: seq<Choice>, display: string): Option<string> {
    if choices == [] then None
    else if choices[0].display == display then Some(choices[0].key)
    else KeyOf(choices[1..], display)
  }

  function LabelsOf(choices: seq<Choice>, keys: seq<string>): seq<string> {
    if keys == [] then []
    else
      var init := LabelsOf(choices, keys[..|keys| - 1]);
      var display := LabelOf(choices, keys[|keys| - 1]);
      if display.Some? then init + [display.value] else init
  }

  lemma {:induction false} LabelNamesKey(choices: seq<Choice>, key: string)
    requires UniqueDisplays(choices) && HasChoice(choices, key)
    ensures LabelOf(choices, key).Some? && KeyOf(choices, LabelOf(choices, key).value) == Some(key)
    ensures exists i :: 0 <= i < |choices| && choices[i] == Choice(key, LabelOf(choices, key).value)
  {
    var i :| 0 <= i < |choices| && choices[i].key == key;
    if choices[0].key == key {
      assert choices[0] == Choice(key, choices[0].display);
    } else {
      assert choices[1..][i - 1].key == key;
      LabelNamesKey(choices[1..], key);
      var k :| 0 <= k < |choices[1..]| && choices[1..][k] == Choice(key, LabelOf(choices[1..], key).value);
      assert choices[k + 1] == Choice(key, LabelOf(choices, key).value);
      assert choices[0].display != choices[k + 1].display;
    }
  }

  /** A selection has one label for each key, in the same order, and the labels say which keys they
      stand for. */
  lemma {:induction false} LabelsDetermineSelection(choices: seq<Choice>, keys: seq<string>)
    requires UniqueDisplays(choices) && forall i :: 0 <= i < |keys| ==> HasChoice(choices, keys[i])
    ensures |LabelsOf(choices, keys)| == |keys|
    ensures forall i :: 0 <= i < |keys| ==>
              && LabelOf(choices, keys[i]) == Some(LabelsOf(choices, keys)[i])
              && KeyOf(choices, LabelsOf(choices, keys)[i]) == Some(keys[i])
  {
    hide LabelOf, KeyOf, HasChoice, UniqueDisplays;
    if keys != [] {
      LabelsDetermineSelection(choices, keys[..|keys| - 1]);
      LabelNamesKey(choices, keys[|keys| - 1]);
    }
  }

  lemma {:induction false} LabelsGiveKeysBack(choices: seq<Choice>, keys: seq<string>)
    requires UniqueDisplays(choices) && forall i :: 0 <= i < |keys| ==> HasChoice(choices, keys[i])
    ensures KeysOf(choices, LabelsOf(choices, keys)) == keys
  {
    if keys != [] {
      hide KeyOf, LabelOf, KeysOf, LabelsOf, HasChoice, UniqueDisplays;
      var init, last := keys[..|keys| - 1], keys[|keys| - 1];
      LabelsGiveKeysBack(choices, init);
      LabelNamesKey(choices, last);
      LabelsOneMore(choices, init, last);
      KeysOneMore(choices, LabelsOf(choices, init), LabelOf(choices, last).value);
      assert init + [last] == keys;
    }
  }

  lemma LabelsOneMore(choices: seq<Choice>, keys: seq<string>, key: string)
    ensures LabelOf(choices, key).Some? ==>
              LabelsOf(choices, keys + [key]) == LabelsOf(choices, keys) + [LabelOf(choices, key).value]
  {
    hide LabelOf;
    assert (keys + [key])[..|keys|] == keys;
  }

  lemma KeysOneMore(choices: seq<Choice>, displays: seq<string>, display: string)
    ensures KeyOf(choices, display).Some? ==>
              KeysOf(choices, displays + [display]) == KeysOf(choices, displays) + [KeyOf(choices, display).value]
  {
    hide KeyOf;
    assert (displays + [display])[..|displays|] == displays;
  }

  function KeysOf(choices: seq<Choice>, displays: seq<string>): seq<string> {
    if displays == [] then []
    else
      var init := KeysOf(choices, displays[..|displays| - 1]);
      var key := KeyOf(choices, displays[|displays| - 1]);
      if key.Some? then init + [key.value] else init
  }

  /** The items that are texts. */
  function Texts(items: seq<Json>): seq<string> {
    if items == [] then []
    else
      var init, last := Texts(items[..|items| - 1]), items[|items| - 1];
      if last.String? then init + [last.text] else init
  }

  lemma {:induction false} TextsOfStrings(texts: seq<string>)
    ensures Texts(JsonStrings(texts)) == texts
  {
    if texts != [] {
      var init := texts[..|texts| - 1];
      TextsOfStrings(init);
      assert JsonStrings(texts)[..|texts| - 1] == JsonStrings(init);
    }
  }

  predicate HasChoices(field: Field) {
    field.OneChoice? || field.MultiChoice?
  }

  function ItemsOf(value: Option<Json>): seq<Json> {
    if AsList(value).Some? then AsList(value).value else []
  }

  /** What is shown for the value of a field with choices: nothing when there is no such choice, and
      always a list for several choices. */
  function Shown(field: Field, value: Option<Json>): Option<Json>
    requires HasChoices(field)
  {
    match field
    case OneChoice(_, choices, _) =>
      if AsText(value).None? || AsText(value).value == "" then None
      else
        var display := LabelOf(choices, AsText(value).value);
        if display.Some? then Some(String(display.value)) else None
    case MultiChoice(_, choices, _) => Some(List(JsonStrings(LabelsOf(choices, Texts(ItemsOf(value))))))
  }

  /** The displayed values of an answer: there are some exactly when a field has choices, and then every
      such field has its own and nothing else is there. */
  method FormDialogDisplayValues(fields: seq<Field>, values: Values) returns (result: Option<Values>)
    requires WellFormed(fields)
    ensures result.Some? <==> exists i :: 0 <= i < |fields| && (fields[i].OneChoice? || fields[i].MultiChoice?)
    ensures result.Some? ==>
              && (forall i :: 0 <= i < |fields| && HasChoices(fields[i]) ==>
                    Lookup(result.value, fields[i].key) == Shown(fields[i], Lookup(values, fields[i].key)))
              && (forall key | key in result.value ::
                    exists i :: 0 <= i < |fields| && HasChoices(fields[i]) && fields[i].key == key)
  {
    hide Shown, WellConfigured;
    var display: Values := map[];
    var hasChoiceField := false;
    var i := 0;
    while i < |fields|
      invariant 0 <= i <= |fields|
      invariant hasChoiceField <==> exists k :: 0 <= k < i && HasChoices(fields[k])
      invariant forall k :: 0 <= k < i && HasChoices(fields[k]) ==>
                  Lookup(display, fields[k].key) == Shown(fields[k], Lookup(values, fields[k].key))
      invariant forall key | key in display :: exists k :: 0 <= k < i && HasChoices(fields[k]) && fields[k].key == key
    {
      var field := fields[i];
      if HasChoices(field) {
        hasChoiceField := true;
        var shown := Shown(field, Lookup(values, field.key));
        if shown.Some? {
          display := display[field.key := shown.value];
        }
      }
      i := i + 1;
    }
    result := if hasChoiceField then Some(display) else None;
  }

  /** What was chosen when this is shown. */
  function Unshown(field: Field, shown: Option<Json>): Option<Json>
    requires HasChoices(field)
  {
    match field
    case OneChoice(_, choices, _) =>
      if AsText(shown).None? then Some(String(""))
      else
        var key := KeyOf(choices, AsText(shown).value);
        if key.Some? then Some(String(key.value)) else None
    case MultiChoice(_, choices, _) => Some(List(JsonStrings(KeysOf(choices, Texts(ItemsOf(shown))))))
  }

  /** What is shown for an accepted value tells the value. */
  lemma ShownTellsChoice(r: Readers, field: Field, value: Option<Json>)
    requires HasChoices(field) && UniqueChoices(field.choices) && UniqueDisplays(field.choices)
    requires CheckField(r, field, value).Ok?
    ensures var kept := CheckField(r, field, value).value; Unshown(field, Shown(field, kept)) == kept
  {
    match field
    case OneChoice(_, choices, _) =>
      var text := AsText(value).value;
      if text != "" {
        LabelNamesKey(choices, text);
      }
    case MultiChoice(_, choices, required) =>
      MultiChoiceTells(choices, required, value);
  }

  lemma MultiChoiceTells(choices: seq<Choice>, required: bool, value: Option<Json>)
    requires UniqueChoices(choices) && UniqueDisplays(choices) && CheckMultiChoice(choices, required, value).Ok?
    ensures var kept := CheckMultiChoice(choices, required, value).value;
            kept.Some? && kept.value.List?
            && Some(List(JsonStrings(KeysOf(choices, LabelsOf(choices, Texts(kept.value.items)))))) == kept
            && Texts(JsonStrings(LabelsOf(choices, Texts(kept.value.items))))
                == LabelsOf(choices, Texts(kept.value.items))
  {
    MultiChoiceIsCanonical(choices, required, value);
    var submitted := Strings(AsList(value).value).value;
    var kept := InConfiguredOrder(choices, SetOf(submitted));
    TextsOfStrings(kept);
    TextsOfStrings(LabelsOf(choices, kept));
    ConfiguredOrderMeans(choices, SetOf(submitted));
    forall i | 0 <= i < |kept| ensures HasChoice(choices, kept[i]) {
      assert kept[i] in kept;
    }
    hide InConfiguredOrder, CheckMultiChoice, LabelsOf, KeysOf, Texts;
    LabelsGiveKeysBack(choices, kept);
  }

  /** The displayed values of an accepted answer tell what was chosen in every field with choices. */
  lemma DisplayTellsAnswer(r: Readers, fields: seq<Field>, values: Values, after: Values, display: Values, i: nat)
    requires WellFormed(fields) && Validates(r, fields, values, after)
    requires i < |fields| && (fields[i].OneChoice? || fields[i].MultiChoice?) && UniqueChoices(fields[i].choices)
         && UniqueDisplays(fields[i].choices)
    requires Lookup(display, fields[i].key) == Shown(fields[i], Lookup(after, fields[i].key))
    ensures Unshown(fields[i], Lookup(display, fields[i].key)) == Lookup(after, fields[i].key)
  {
    hide CheckField, Shown, Unshown, UniqueChoices, UniqueDisplays;
    CanonicalOf(r, fields, values, i);
    ShownTellsChoice(r, fields[i], Lookup(values, fields[i].key));
  }
}
