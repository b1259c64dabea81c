/** Exporting the log history as CSV, page by page. */
module CsvExport {
  import opened Wrappers

  // ---- writing ---------------------------------------------------------------------

  datatype LogRecord = LogRecord(
    timestampUnixMs: nat, level: string, scriptName: string, scriptId: string, runId: string,
    logIndex: nat, nodeId: Option<string>, actionType: Option<string>, message: string)

  /** What the running program puts on every row. */
  datatype Runner = Runner(version: string, system: string, architecture: string, schemaVersion: Option<int>)

  function Header(): seq<string> {
    ["runner_version", "operating_system", "architecture", "storage_schema_version",
     "timestamp_unix_ms", "level", "script_name", "script_id", "run_id", "log_index", "node_id",
     "action_type", "message"]
  }

  const LINE_END := "\r\n"

  const DIGITS := "0123456789"

  function Decimal(n: int): string
    decreases if n < 0 then -n + 1 else n
  {
    if n < 0 then "-" + Decimal(-n)
    else if n < 10 then [DIGITS[n]]
    else Decimal(n / 10) + [DIGITS[n % 10]]
  }

  function OrEmpty(text: Option<string>): string {
    match text case None => "" case Some(value) => value
  }

  function Fields(log: LogRecord, runner: Runner): seq<string> {
    [runner.version, runner.system, runner.architecture,
     if runner.schemaVersion.None? then "" else Decimal(runner.schemaVersion.value),
     Decimal(log.timestampUnixMs), log.level, log.scriptName, log.scriptId, log.runId, Decimal(log.logIndex),
     OrEmpty(log.nodeId), OrEmpty(log.actionType), log.message]
  }

  /** A spreadsheet would read the field as a formula. */
  predicate FormulaStart(value: string) {
    value != [] && value[0] in "=+-@\t\r\n"
  }

  function Guarded(value: string): string {
    if FormulaStart(value) then "'" + value else value
  }

  /** Every double quote twice. */
  function Doubled(value: string): string {
    if value == [] then []
    else (if value[0] == '"' then "\"\"" else [value[0]]) + Doubled(value[1..])
  }

  function CsvField(value: string): string {
    "\"" + Doubled(Guarded(value)) + "\""
  }

  function JoinFields(fields: seq<string>): string {
    if fields == [] then []
    else if |fields| == 1 then fields[0]
    else fields[0] + "," + JoinFields(fields[1..])
  }

  function MapFields(fields: seq<string>, f: string -> string): seq<string> {
    seq(|fields|, i requires 0 <= i < |fields| => f(fields[i]))
  }

  function RowText(fields: seq<string>): string {
    JoinFields(MapFields(fields, CsvField)) + LINE_END
  }

  function RowsText(rows: seq<seq<string>>): string {
    if rows == [] then [] else RowText(rows[0]) + RowsText(rows[1..])
  }

  function HeaderText(): string {
    JoinFields(Header()) + LINE_END
  }

  function RowsOf(logs: seq<LogRecord>, runner: Runner): seq<seq<string>> {
    seq(|logs|, i requires 0 <= i < |logs| => Fields(logs[i], runner))
  }

  /** The whole exported file. */
  function Document(logs: seq<LogRecord>, runner: Runner): string {
    HeaderText() + RowsText(RowsOf(logs, runner))
  }

  /** What a decimal text says. */
  function Number(text: string): int {
    if text == [] then 0
    else if text[0] == '-' then -Number(text[1..])
    else 10 * Number(text[..|text| - 1]) + (text[|text| - 1] as int - 48)
  }

  lemma {:induction false} DecimalSays(n: int)
    ensures Number(Decimal(n)) == n && Decimal(n) != [] && (n >= 0 ==> '0' <= Decimal(n)[0] <= '9')
    decreases if n < 0 then -n + 1 else n
  {
    hide Number;
    if n < 0 {
      DecimalSays(-n);
      MinusSays(Decimal(-n));
    } else if n >= 10 {
      DecimalSays(n / 10);
      OneDigit(n % 10);
      DigitAppended(Decimal(n / 10), n % 10);
    } else {
      OneDigit(n);
      DigitAppended([], n);
      NothingSays();
      assert [] + [DIGITS[n]] == [DIGITS[n]];
    }
  }

  lemma NothingSays()
    ensures Number([]) == 0
  {
  }

  lemma MinusSays(text: string)
    ensures Number("-" + text) == -Number(text)
  {
    assert ("-" + text)[1..] == text;
  }

  lemma DigitAppended(text: string, n: int)
    requires 0 <= n < 10 && (text == [] || text[0] != '-')
    ensures Number(text + [DIGITS[n]]) == 10 * Number(text) + n
  {
    OneDigit(n);
    var more := text + [DIGITS[n]];
    assert more[..|more| - 1] == text && more[0] != '-';
  }

  lemma OneDigit(n: int)
    requires 0 <= n < 10
    ensures DIGITS[n] as int == 48 + n && '0' <= DIGITS[n] <= '9'
  {
  }

  /** Each column holds what its name says, numbers as decimal text and what is missing as nothing. */
  lemma ColumnsSay(log: LogRecord, runner: Runner)
    ensures var f, h := Fields(log, runner), Header();
            && |f| == |h| == 13
            && h[0] == "runner_version" && f[0] == runner.version
            && h[1] == "operating_system" && f[1] == runner.system
            && h[2] == "architecture" && f[2] == runner.architecture
            && h[3] == "storage_schema_version"
            && (if runner.schemaVersion.Some? then Number(f[3]) == runner.schemaVersion.value else f[3] == "")
            && h[4] == "timestamp_unix_ms" && Number(f[4]) == log.timestampUnixMs && !FormulaStart(f[4])
            && h[5] == "level" && f[5] == log.level
            && h[6] == "script_name" && f[6] == log.scriptName
            && h[7] == "script_id" && f[7] == log.scriptId
            && h[8] == "run_id" && f[8] == log.runId
            && h[9] == "log_index" && Number(f[9]) == log.logIndex && !FormulaStart(f[9])
            && h[10] == "node_id" && (if log.nodeId.Some? then f[10] == log.nodeId.value else f[10] == "")
            && h[11] == "action_type" && (if log.actionType.Some? then f[11] == log.actionType.value else f[11] == "")
            && h[12] == "message" && f[12] == log.message
  {
    hide Decimal, Number, FormulaStart;
    DecimalSays(log.timestampUnixMs);
    DigitsAreNoFormula(Decimal(log.timestampUnixMs));
    DecimalSays(log.logIndex);
    DigitsAreNoFormula(Decimal(log.logIndex));
    if runner.schemaVersion.Some? {
      DecimalSays(runner.schemaVersion.value);
    }
  }

  lemma DigitsAreNoFormula(text: string)
    requires text != [] && '0' <= text[0] <= '9'
    ensures !FormulaStart(text)
  {
  }

  // ---- reading by rules 5 to 7 of section 2 of RFC 4180 ----------------------------

  /** Where a reader is: before a field, in a bare one, in a quoted one, or after a quote in it. */
  datatype Place = Before | Bare | Quoted | AfterQuote

  predicate AtLineEnd(text: string) {
    |text| >= 2 && text[0] == '\r' && text[1] == '\n'
  }

  function Read(text: string, place: Place, field: string, record: seq<string>): Option<seq<seq<string>>>
    decreases |text|
  {
    if place.Quoted? then
      if text == [] then None
      else if text[0] == '"' then Read(text[1..], AfterQuote, field, record)
      else Read(text[1..], Quoted, field + [text[0]], record)
    else if text == [] then
      Some(if place.Before? && record == [] then [] else [record + [field]])
    else if text[0] == ',' then Read(text[1..], Before, [], record + [field])
    else if AtLineEnd(text) then
      match Read(text[2..], Before, [], [])
      case None => None
      case Some(rest) => Some([record + [field]] + rest)
    else if text[0] == '"' then
      if place.Before? then Read(text[1..], Quoted, [], record)
      else if place.AfterQuote? then Read(text[1..], Quoted, field + "\"", record)
      else None
    else if place.AfterQuote? || text[0] == '\r' || text[0] == '\n' then None
    else Read(text[1..], Bare, field + [text[0]], record)
  }

  function ReadCsv(text: string): Option<seq<seq<string>>> {
    Read(text, Before, [], [])
  }

  // ---- the round trip --------------------------------------------------------------

  /** A quoted value is read back whole, whatever quotes, commas or line breaks it holds. */
  lemma {:induction false} ReadDoubled(value: string, rest: string, field: string, record: seq<string>)
    ensures Read(Doubled(value) + "\"" + rest, Quoted, field, record) == Read(rest, AfterQuote, field + value, record)
  {
    var text := Doubled(value) + "\"" + rest;
    if value == [] {
      assert text[1..] == rest && field + value == field;
    } else {
      var tail := Doubled(value[1..]) + "\"" + rest;
      ReadDoubled(value[1..], rest, field + [value[0]], record);
      assert field + [value[0]] + value[1..] == field + value by {
        assert value == [value[0]] + value[1..];
      }
      if value[0] == '"' {
        assert text == ['"', '"'] + tail;
        assert text[1..] == ['"'] + tail && text[1..][1..] == tail;
        assert !AtLineEnd(text[1..]) && field + "\"" == field + [value[0]];
      } else {
        assert text == [value[0]] + tail && text[1..] == tail;
      }
    }
  }

  lemma ReadField(value: string, rest: string, record: seq<string>)
    ensures Read(CsvField(value) + rest, Before, [], record) == Read(rest, AfterQuote, Guarded(value), record)
  {
    var text := CsvField(value) + rest;
    assert text[0] == '"' && !AtLineEnd(text);
    assert text[1..] == Doubled(Guarded(value)) + "\"" + rest;
    ReadDoubled(Guarded(value), rest, [], record);
    assert [] + Guarded(value) == Guarded(value);
  }

  /** What the reader makes of the text after a line end. */
  function EndRecord(record: seq<string>, rest: Option<seq<seq<string>>>): Option<seq<seq<string>>> {
    match rest case None => None case Some(records) => Some([record] + records)
  }

  lemma ReadComma(rest: string, place: Place, field: string, record: seq<string>)
    requires place.Bare? || place.AfterQuote?
    ensures Read("," + rest, place, field, record) == Read(rest, Before, [], record + [field])
  {
    assert ("," + rest)[1..] == rest;
  }

  lemma ReadLineEnd(rest: string, place: Place, field: string, record: seq<string>)
    requires place.Bare? || place.AfterQuote?
    ensures Read(LINE_END + rest, place, field, record) == EndRecord(record + [field], Read(rest, Before, [], []))
  {
    assert (LINE_END + rest)[2..] == rest;
  }

  lemma {:induction false} ReadRow(fields: seq<string>, rest: string, record: seq<string>)
    requires fields != []
    ensures Read(RowText(fields) + rest, Before, [], record)
         == EndRecord(record + MapFields(fields, Guarded), Read(rest, Before, [], []))
  {
    hide Read, CsvField, Guarded;
    var first := CsvField(fields[0]);
    var others := MapFields(fields[1..], CsvField);
    assert MapFields(fields, CsvField) == [first] + others;
    assert MapFields(fields, Guarded) == [Guarded(fields[0])] + MapFields(fields[1..], Guarded);
    if |fields| == 1 {
      assert JoinFields([first] + others) == first
          && record + [Guarded(fields[0])] == record + MapFields(fields, Guarded);
      assert RowText(fields) + rest == first + (LINE_END + rest);
      ReadField(fields[0], LINE_END + rest, record);
      ReadLineEnd(rest, AfterQuote, Guarded(fields[0]), record);
    } else {
      var after := RowText(fields[1..]) + rest;
      assert MapFields(fields, CsvField)[1..] == others;
      assert RowText(fields) + rest == first + ("," + after);
      ReadField(fields[0], "," + after, record);
      ReadComma(after, AfterQuote, Guarded(fields[0]), record);
      ReadRow(fields[1..], rest, record + [Guarded(fields[0])]);
      assert record + [Guarded(fields[0])] + MapFields(fields[1..], Guarded) == record + MapFields(fields, Guarded);
    }
  }

  function GuardedRows(rows: seq<seq<string>>): seq<seq<string>> {
    seq(|rows|, i requires 0 <= i < |rows| => MapFields(rows[i], Guarded))
  }

  lemma {:induction false} ReadRows(rows: seq<seq<string>>)
    requires forall row | row in rows :: row != []
    ensures ReadCsv(RowsText(rows)) == Some(GuardedRows(rows))
  {
    if rows != [] {
      hide Read, RowText;
      assert rows[0] in rows;
      ReadRow(rows[0], RowsText(rows[1..]), []);
      forall row | row in rows[1..] ensures row != [] {
        assert row in rows;
      }
      ReadRows(rows[1..]);
      assert [] + MapFields(rows[0], Guarded) == MapFields(rows[0], Guarded);
      assert GuardedRows(rows) == [MapFields(rows[0], Guarded)] + GuardedRows(rows[1..]);
    }
  }

  /** A name of plain letters and underscores is read back bare. */
  predicate Plain(name: string) {
    name != [] && PlainRest(name)
  }

  predicate PlainChar(c: char) {
    'a' <= c <= 'z' || c == '_'
  }

  predicate PlainRest(name: string) {
    forall i :: 0 <= i < |name| ==> PlainChar(name[i])
  }

  lemma {:induction false} ReadBare(name: string, rest: string, place: Place, field: string, record: seq<string>)
    requires PlainRest(name) && (place.Bare? || (place.Before? && name != []))
    ensures Read(name + rest, place, field, record) == Read(rest, Bare, field + name, record)
  {
    var text := name + rest;
    if name == [] {
      assert text == rest && field + name == field;
    } else {
      assert PlainChar(name[0]) && text[0] == name[0] && text[1..] == name[1..] + rest;
      forall i | 0 <= i < |name[1..]| ensures PlainChar(name[1..][i]) {
        assert PlainChar(name[i + 1]);
      }
      ReadBare(name[1..], rest, Bare, field + [name[0]], record);
      assert field + [name[0]] + name[1..] == field + name;
    }
  }

  lemma {:induction false} ReadHeader(names: seq<string>, rest: string, record: seq<string>)
    requires names != [] && forall i :: 0 <= i < |names| ==> Plain(names[i])
    ensures Read(JoinFields(names) + LINE_END + rest, Before, [], record)
         == EndRecord(record + names, Read(rest, Before, [], []))
  {
    hide Read, PlainRest;
    assert Plain(names[0]);
    assert [] + names[0] == names[0];
    if |names| == 1 {
      assert JoinFields(names) + LINE_END + rest == names[0] + (LINE_END + rest);
      ReadBare(names[0], LINE_END + rest, Before, [], record);
      ReadLineEnd(rest, Bare, names[0], record);
      assert record + [names[0]] == record + names;
    } else {
      var after := JoinFields(names[1..]) + LINE_END + rest;
      assert JoinFields(names) + LINE_END + rest == names[0] + ("," + after);
      ReadBare(names[0], "," + after, Before, [], record);
      ReadComma(after, Bare, names[0], record);
      ReadHeader(names[1..], rest, record + [names[0]]);
      assert record + [names[0]] + names[1..] == record + names;
    }
  }

  lemma RunnerNamesArePlain()
    ensures Plain("runner_version") && Plain("operating_system")
  {
  }

  lemma StorageNamesArePlain()
    ensures Plain("architecture") && Plain("storage_schema_version")
  {
  }

  lemma ScriptNamesArePlain()
    ensures Plain("timestamp_unix_ms") && Plain("level") && Plain("script_name") && Plain("script_id")
  {
  }

  lemma RunNamesArePlain()
    ensures Plain("run_id") && Plain("log_index") && Plain("node_id") && Plain("action_type") && Plain("message")
  {
  }

  lemma HeaderIsPlain()
    ensures forall i :: 0 <= i < |Header()| ==> Plain(Header()[i])
  {
    hide Plain;
    RunnerNamesArePlain();
    StorageNamesArePlain();
    ScriptNamesArePlain();
    RunNamesArePlain();
  }

  /** Reading the exported file gives the header and then every log's fields, in order. */
  lemma DocumentRoundTrip(logs: seq<LogRecord>, runner: Runner)
    ensures ReadCsv(Document(logs, runner)) == Some([Header()] + GuardedRows(RowsOf(logs, runner)))
  {
    hide Read, Plain, RowsText;
    var rows := RowsOf(logs, runner);
    forall row | row in rows ensures row != [] {
      var i :| 0 <= i < |rows| && rows[i] == row;
      assert |Fields(logs[i], runner)| == 13;
    }
    HeaderIsPlain();
    ReadHeader(Header(), RowsText(rows), []);
    ReadRows(rows);
    assert [] + Header() == Header();
    assert Document(logs, runner) == JoinFields(Header()) + LINE_END + RowsText(rows);
  }

  /** The apostrophe is the only thing a reader cannot undo: two fields are written alike exactly when
      they are the same, or one is the other with an apostrophe before a formula character. */
  lemma WrittenAlikeIff(a: string, b: string)
    ensures CsvField(a) == CsvField(b)
       <==> a == b || (FormulaStart(b) && a == "'" + b) || (FormulaStart(a) && b == "'" + a)
  {
    ReadField(a, [], []);
    ReadField(b, [], []);
    assert Read([], AfterQuote, Guarded(a), []) == Some([[Guarded(a)]]) by { assert [] + [Guarded(a)] == [Guarded(a)]; }
    assert Read([], AfterQuote, Guarded(b), []) == Some([[Guarded(b)]]) by { assert [] + [Guarded(b)] == [Guarded(b)]; }
    assert CsvField(a) + [] == CsvField(a) && CsvField(b) + [] == CsvField(b);
    if CsvField(a) == CsvField(b) {
      assert [[Guarded(a)]][0][0] == [[Guarded(b)]][0][0];
      assert Guarded(a) == Guarded(b);
      if FormulaStart(a) && FormulaStart(b) {
        assert Guarded(a)[1..] == a && Guarded(b)[1..] == b;
      }
    }
    if FormulaStart(b) && a == "'" + b {
      assert a[0] == '\'' && !FormulaStart(a);
    }
    if FormulaStart(a) && b == "'" + a {
      assert b[0] == '\'' && !FormulaStart(b);
    }
  }

  // ---- paging ----------------------------------------------------------------------

  const PAGE_LIMIT := 200

  function Min(a: nat, b: nat): nat {
    if a < b then a else b
  }

  /** What a store of fixed contents answers for a page. */
  function Page(logs: seq<LogRecord>, offset: nat): seq<LogRecord> {
    if offset >= |logs| then [] else logs[offset..Min(offset + PAGE_LIMIT, |logs|)]
  }

  lemma RowsTextUnfolds(rows: seq<seq<string>>)
    ensures RowsText(rows) == if rows == [] then "" else RowText(rows[0]) + RowsText(rows[1..])
  {
    hide RowText;
  }

  lemma {:induction false} RowsTextAppends(a: seq<seq<string>>, b: seq<seq<string>>)
    ensures RowsText(a + b) == RowsText(a) + RowsText(b)
  {
    hide RowText, RowsText;
    RowsTextUnfolds(a);
    if a == [] {
      assert a + b == b;
    } else {
      RowsTextUnfolds(a + b);
      RowsTextAppends(a[1..], b);
      assert (a + b)[1..] == a[1..] + b;
    }
  }

  lemma RowsOfAppends(a: seq<LogRecord>, b: seq<LogRecord>, runner: Runner)
    ensures RowsOf(a + b, runner) == RowsOf(a, runner) + RowsOf(b, runner)
  {
  }

  lemma DocumentOneMore(logs: seq<LogRecord>, log: LogRecord, runner: Runner)
    ensures Document(logs + [log], runner) == Document(logs, runner) + RowText(Fields(log, runner))
  {
    hide RowText, Fields, HeaderText;
    RowsOfAppends(logs, [log], runner);
    RowsTextAppends(RowsOf(logs, runner), RowsOf([log], runner));
    assert RowsOf([log], runner) == [Fields(log, runner)];
    OneRowText(Fields(log, runner));
  }

  lemma EmptyDocument(runner: Runner)
    ensures Document([], runner) == HeaderText()
  {
    hide HeaderText;
    assert RowsOf([], runner) == [] && RowsText([]) == [];
  }

  lemma OneRowText(row: seq<string>)
    ensures RowsText([row]) == RowText(row)
  {
    hide RowText;
    assert RowsText([row][1..]) == [];
  }

  /** What the store answers for an offset. */
  type Store = nat -> Result<seq<LogRecord>, string>

  /** The store holds these logs from the first page to the last. */
  ghost predicate Fixed(store: Store, first: seq<LogRecord>, total: nat, logs: seq<LogRecord>) {
    total == |logs| && first == Page(logs, 0) && forall offset: nat :: store(offset) == Ok(Page(logs, offset))
  }

  /** Writes the first page and then asks for the rest. The store may answer anything and the loop ends
      all the same: with the document, or with the error of the first query that fails. */
  method WriteLogExport(store: Store, first: seq<LogRecord>, total: nat, runner: Runner)
    returns (result: Result<string, string>, ghost written: seq<LogRecord>)
    ensures first <= written
    ensures result.Ok? ==> result.value == Document(written, runner)
    ensures result.Ok? ==> |written| >= total || first == [] || store(|written|) == Ok([])
    ensures result.Err? ==> first != [] && |written| < total && store(|written|) == Err(result.error)
    ensures forall logs :: Fixed(store, first, total, logs) ==> result == Ok(Document(logs, runner))
  {
    hide HeaderText, RowText, Fields, Document, Follows, Fixed;
    var output := HeaderText();
    written := [];
    var offset := 0;
    var page := first;
    EmptyDocument(runner);
    FollowsFirst(store, first, total);
    while true
      invariant 0 <= offset == |written|
      invariant output == Document(written, runner)
      invariant if offset == 0 then page == first else store(offset) == Ok(page) && first <= written && offset < total
      invariant offset > 0 ==> first != []
      invariant Follows(store, first, total, offset, written, page)
      decreases total - offset
    {
      FollowOneMore(store, first, total, offset, written, page);
      output, written := WritePage(output, written, page, runner);
      offset := offset + |page|;
      if offset >= total || |page| == 0 {
        return Ok(output), written;
      }
      var answer := store(offset);
      if answer.Err? {
        FixedAnswers(store, first, total, offset);
        return Err(answer.error), written;
      }
      page := answer.value;
    }
  }

  lemma FixedAnswers(store: Store, first: seq<LogRecord>, total: nat, offset: nat)
    ensures forall logs :: Fixed(store, first, total, logs) ==> store(offset).Ok?
  {
  }

  /** For a store that holds fixed logs, the pages so far are the logs up to here. */
  ghost predicate Follows(store: Store, first: seq<LogRecord>, total: nat, offset: nat,
                          written: seq<LogRecord>, page: seq<LogRecord>) {
    forall logs :: Fixed(store, first, total, logs)
        ==> written == logs[..Min(offset, |logs|)] && page == Page(logs, offset)
  }

  lemma FollowsFirst(store: Store, first: seq<LogRecord>, total: nat)
    ensures Follows(store, first, total, 0, [], first)
  {
  }

  lemma FollowOneMore(store: Store, first: seq<LogRecord>, total: nat, offset: nat, written: seq<LogRecord>,
                      page: seq<LogRecord>)
    requires Follows(store, first, total, offset, written, page) && offset == |written|
    ensures var next := offset + |page|;
            if next >= total || page == []
            then forall logs :: Fixed(store, first, total, logs) ==> written + page == logs
            else store(next).Ok? ==> Follows(store, first, total, next, written + page, store(next).value)
  {
    forall logs | Fixed(store, first, total, logs)
      ensures written + page == logs[..Min(offset + |page|, |logs|)]
      ensures page == [] ==> offset >= |logs|
    {
    }
  }

  method WritePage(soFar: string, ghost before: seq<LogRecord>, page: seq<LogRecord>, runner: Runner)
    returns (output: string, ghost written: seq<LogRecord>)
    requires soFar == Document(before, runner)
    ensures written == before + page && output == Document(before + page, runner)
  {
    hide Document, RowText, Fields;
    output, written := soFar, before;
    var i := 0;
    assert before + page[..0] == before;
    while i < |page|
      invariant 0 <= i <= |page|
      invariant written == before + page[..i] && output == Document(written, runner)
    {
      DocumentOneMore(written, page[i], runner);
      output := output + RowText(Fields(page[i], runner));
      written := written + [page[i]];
      assert page[..i] + [page[i]] == page[..i + 1];
      i := i + 1;
    }
    assert page[..i] == page;
  }
}
