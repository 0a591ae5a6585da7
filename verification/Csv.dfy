/** The audit log's CSV export, against a reader for section 2 of RFC 4180. */
module Csv {
  import opened Common
  import opened Text

  // ---------------------------------------------------------------------------- the export

  predicate OpensFormula(s: string) {
    s != "" && s[0] in ['=', '+', '-', '@', '\t', '\r']
  }

  predicate NeedsQuotes(s: string) {
    exists i :: 0 <= i < |s| && s[i] in ['"', ',', '\n', '\r']
  }

  /** s.replace(/"/g, '""') */
  function Doubled(s: string): string {
    if s == "" then "" else (if s[0] == '"' then "\"\"" else [s[0]]) + Doubled(s[1..])
  }

  function Guarded(s: string): string {
    if OpensFormula(s) then "'" + s else s
  }

  function CsvCell(s: string): string {
    var g := Guarded(s);
    if NeedsQuotes(g) then "\"" + Doubled(g) + "\"" else g
  }

  function Line(cells: seq<string>): string {
    if cells == [] then ""
    else if |cells| == 1 then CsvCell(cells[0])
    else CsvCell(cells[0]) + "," + Line(cells[1..])
  }

  function Lines(records: seq<seq<string>>): string {
    if records == [] then "" else Line(records[0]) + "\r\n" + Lines(records[1..])
  }

  datatype Row = Row(
    id: nat, at: string, actorId: Option<nat>, actorName: Option<string>, action: string, targetType: Option<string>,
    targetId: Option<string>, targetName: Option<string>, ip: Option<string>, userAgent: Option<string>,
      details: Option<string>)

  const COLUMNS: seq<string> :=
    ["id", "at", "actor_id", "actor_name", "action", "target_type", "target_id", "target_name", "ip", "user_agent",
      "details"]

  /** The row's values as text, in the columns' order: nothing for null, and the time marked as UTC. */
  function Texts(r: Row): seq<string> {
    [Decimal(r.id), r.at + "Z", if r.actorId.Some? then Decimal(r.actorId.value) else "", r.actorName.GetOr(""),
     r.action, r.targetType.GetOr(""), r.targetId.GetOr(""), r.targetName.GetOr(""), r.ip.GetOr(""),
     r.userAgent.GetOr(""), r.details.GetOr("")]
  }

  function AllTexts(rows: seq<Row>): seq<seq<string>> {
    if rows == [] then [] else [Texts(rows[0])] + AllTexts(rows[1..])
  }

  function Joined(cells: seq<string>): string {
    if cells == [] then "" else if |cells| == 1 then cells[0] else cells[0] + "," + Joined(cells[1..])
  }

  /** The header is written as it is, the cells through CsvCell. */
  function AuditCsv(rows: seq<Row>): string {
    Joined(COLUMNS) + "\r\n" + Lines(AllTexts(rows))
  }

  // ---------------------------------------------------------------------------- the reader

  datatype Read<T> = Read(value: T, rest: string)

  /** A plain field: up to a comma, quote or line break. */
  function ReadPlain(s: string): (r: Read<string>)
    ensures |r.rest| <= |s|
  {
    if s == "" || s[0] in ['"', ',', '\n', '\r'] then Read("", s)
    else var r := ReadPlain(s[1..]); Read([s[0]] + r.value, r.rest)
  }

  /** A quoted field after its opening quote; a doubled quote stands for one. */
  function ReadQuoted(s: string): (r: Option<Read<string>>)
    ensures r.Some? ==> |r.value.rest| < |s|
  {
    if s == "" then None
    else if s[0] == '"' then
      if |s| > 1 && s[1] == '"' then
        var r := ReadQuoted(s[2..]);
        if r.None? then None else Some(Read("\"" + r.value.value, r.value.rest))
      else Some(Read("", s[1..]))
    else
      var r := ReadQuoted(s[1..]);
      if r.None? then None else Some(Read([s[0]] + r.value.value, r.value.rest))
  }

  function ReadField(s: string): (r: Option<Read<string>>)
    ensures r.Some? ==> |r.value.rest| <= |s|
  {
    if s != "" && s[0] == '"' then ReadQuoted(s[1..]) else Some(ReadPlain(s))
  }

  /** Fields separated by commas, up to a line break or the end. */
  function ReadRecord(s: string): (r: Option<Read<seq<string>>>)
    ensures r.Some? && s != "" ==> |r.value.rest| < |s|
    decreases |s|
  {
    var f := ReadField(s);
    if f.None? then None
    else if f.value.rest == "" then Some(Read([f.value.value], ""))
    else if f.value.rest[0] == ',' then
      var r := ReadRecord(f.value.rest[1..]);
      if r.None? then None else Some(Read([f.value.value] + r.value.value, r.value.rest))
    else if |f.value.rest| > 1 && f.value.rest[..2] == "\r\n" then Some(Read([f.value.value], f.value.rest[2..]))
    else None
  }

  function ReadFile(s: string): Option<seq<seq<string>>>
    decreases |s|
  {
    if s == "" then Some([])
    else
      var r := ReadRecord(s);
      if r.None? then None
      else
        var more := ReadFile(r.value.rest);
        if more.None? then None else Some([r.value.value] + more.value)
  }

  // ---------------------------------------------------------------------------- round trip

  function AllGuarded(cells: seq<string>): seq<string> {
    if cells == [] then [] else [Guarded(cells[0])] + AllGuarded(cells[1..])
  }

  function RecordsGuarded(records: seq<seq<string>>): seq<seq<string>> {
    if records == [] then [] else [AllGuarded(records[0])] + RecordsGuarded(records[1..])
  }

  lemma {:induction false} QuotedReadsBack(s: string, rest: string)
    requires rest == "" || rest[0] != '"'
    ensures ReadQuoted(Doubled(s) + "\"" + rest) == Some(Read(s, rest))
  {
    var text := Doubled(s) + "\"" + rest;
    if s != "" {
      QuotedReadsBack(s[1..], rest);
      var tail := Doubled(s[1..]) + "\"" + rest;
      if s[0] == '"' {
        assert text[2..] == tail;
      } else {
        assert text[0] == s[0] && text[1..] == tail;
      }
      assert [s[0]] + s[1..] == s;
    } else {
      assert text[1..] == rest;
    }
  }

  lemma {:induction false} PlainReadsBack(s: string, rest: string)
    requires !NeedsQuotes(s) && (rest == "" || rest[0] in [',', '\r'])
    ensures ReadPlain(s + rest) == Read(s, rest)
  {
    if s != "" {
      assert s[0] !in ['"', ',', '\n', '\r'];
      PlainReadsBack(s[1..], rest);
      assert (s + rest)[1..] == s[1..] + rest && [s[0]] + s[1..] == s;
    } else {
      assert s + rest == rest;
    }
  }

  lemma QuotedField(g: string, rest: string)
    requires rest == "" || rest[0] != '"'
    ensures ReadField("\"" + Doubled(g) + "\"" + rest) == Some(Read(g, rest))
  {
    hide *;
    QuotedReadsBack(g, rest);
    OpenQuote(Doubled(g) + "\"" + rest);
    assert "\"" + Doubled(g) + "\"" + rest == "\"" + (Doubled(g) + "\"" + rest);
  }

  lemma OpenQuote(text: string)
    ensures ReadField("\"" + text) == ReadQuoted(text)
  {
    hide ReadQuoted, ReadPlain;
    assert ("\"" + text)[1..] == text;
  }

  lemma PlainField(g: string, rest: string)
    requires !NeedsQuotes(g) && (rest == "" || rest[0] in [',', '\r'])
    ensures ReadField(g + rest) == Some(Read(g, rest))
  {
    PlainReadsBack(g, rest);
    assert g != "" ==> g[0] != '"';
    hide ReadPlain, ReadQuoted, NeedsQuotes;
  }

  lemma CellReadsBack(s: string, rest: string)
    requires rest == "" || rest[0] in [',', '\r']
    ensures ReadField(CsvCell(s) + rest) == Some(Read(Guarded(s), rest))
  {
    hide ReadField, Doubled, NeedsQuotes, Guarded;
    if NeedsQuotes(Guarded(s)) {
      QuotedField(Guarded(s), rest);
    } else {
      PlainField(Guarded(s), rest);
    }
  }

  lemma RecordEnds(s: string, v: string, rest: string)
    requires ReadField(s) == Some(Read(v, "\r\n" + rest))
    ensures ReadRecord(s) == Some(Read([v], rest))
  {
    hide ReadField;
    var after := "\r\n" + rest;
    assert after[..2] == "\r\n" && after[2..] == rest;
  }

  lemma RecordGoesOn(s: string, v: string, more: string, vs: seq<string>, rest: string)
    requires ReadField(s) == Some(Read(v, "," + more)) && ReadRecord(more) == Some(Read(vs, rest))
    ensures ReadRecord(s) == Some(Read([v] + vs, rest))
  {
    hide ReadField;
    var after := "," + more;
    assert after[0] == ',' && after[1..] == more;
  }

  lemma {:induction false} LineReadsBack(cells: seq<string>, rest: string)
    requires cells != []
    ensures ReadRecord(Line(cells) + "\r\n" + rest) == Some(Read(AllGuarded(cells), rest))
  {
    hide ReadField, ReadRecord, CsvCell, Guarded;
    if |cells| == 1 {
      LastCell(cells[0], rest);
      assert AllGuarded(cells) == [Guarded(cells[0])];
    } else {
      LineReadsBack(cells[1..], rest);
      NextCell(cells[0], Line(cells[1..]) + "\r\n" + rest, AllGuarded(cells[1..]), rest);
      assert Line(cells) + "\r\n" + rest == CsvCell(cells[0]) + "," + (Line(cells[1..]) + "\r\n" + rest);
    }
  }

  lemma LastCell(s: string, rest: string)
    ensures ReadRecord(CsvCell(s) + "\r\n" + rest) == Some(Read([Guarded(s)], rest))
  {
    hide ReadField, ReadRecord, CsvCell, Guarded;
    CellReadsBack(s, "\r\n" + rest);
    assert CsvCell(s) + "\r\n" + rest == CsvCell(s) + ("\r\n" + rest);
    RecordEnds(CsvCell(s) + "\r\n" + rest, Guarded(s), rest);
  }

  lemma NextCell(s: string, more: string, vs: seq<string>, rest: string)
    requires ReadRecord(more) == Some(Read(vs, rest))
    ensures ReadRecord(CsvCell(s) + "," + more) == Some(Read([Guarded(s)] + vs, rest))
  {
    hide ReadField, ReadRecord, CsvCell, Guarded;
    CellReadsBack(s, "," + more);
    assert CsvCell(s) + "," + more == CsvCell(s) + ("," + more);
    RecordGoesOn(CsvCell(s) + "," + more, Guarded(s), more, vs, rest);
  }

  lemma FileGoesOn(s: string, record: seq<string>, rest: string, records: seq<seq<string>>)
    requires s != "" && ReadRecord(s) == Some(Read(record, rest)) && ReadFile(rest) == Some(records)
    ensures ReadFile(s) == Some([record] + records)
  {
    hide ReadRecord;
  }

  lemma {:induction false} LinesReadBack(records: seq<seq<string>>)
    requires forall r | r in records :: r != []
    ensures ReadFile(Lines(records)) == Some(RecordsGuarded(records))
  {
    hide ReadRecord, Line, AllGuarded;
    if records != [] {
      assert records[0] in records;
      LineReadsBack(records[0], Lines(records[1..]));
      assert forall r | r in records[1..] :: r in records;
      LinesReadBack(records[1..]);
      hide ReadFile;
      FileGoesOn(Lines(records), AllGuarded(records[0]), Lines(records[1..]), RecordsGuarded(records[1..]));
    }
  }

  lemma {:induction false} PlainLine(cells: seq<string>)
    requires forall c | c in cells :: !OpensFormula(c) && !NeedsQuotes(c)
    ensures Joined(cells) == Line(cells) && AllGuarded(cells) == cells
  {
    if cells != [] {
      assert cells[0] in cells;
      PlainLine(cells[1..]);
      assert cells == [cells[0]] + cells[1..];
    }
  }

  lemma {:induction false} TextsNotEmpty(rows: seq<Row>)
    ensures forall r | r in AllTexts(rows) :: r != []
  {
    if rows != [] { TextsNotEmpty(rows[1..]); }
  }

  /** Whatever quotes, commas and line breaks the rows hold, a reader gets back the header and exactly
      each row's guarded cells. */
  lemma ExportReadsBack(rows: seq<Row>)
    ensures ReadFile(AuditCsv(rows)) == Some([COLUMNS] + RecordsGuarded(AllTexts(rows)))
  {
    hide ReadFile, ReadRecord, Line, Lines, AllTexts, AllGuarded, RecordsGuarded, Joined;
    TextsNotEmpty(rows);
    LinesReadBack(AllTexts(rows));
    HeaderReadsBack(Lines(AllTexts(rows)));
    FileGoesOn(AuditCsv(rows), COLUMNS, Lines(AllTexts(rows)), RecordsGuarded(AllTexts(rows)));
  }

  lemma HeaderReadsBack(rest: string)
    ensures ReadRecord(Joined(COLUMNS) + "\r\n" + rest) == Some(Read(COLUMNS, rest))
  {
    hide ReadRecord, Line, AllGuarded, Joined;
    PlainColumns();
    PlainLine(COLUMNS);
    LineReadsBack(COLUMNS, rest);
  }

  lemma PlainColumns()
    ensures forall c | c in COLUMNS :: !OpensFormula(c) && !NeedsQuotes(c)
  {
  }

  /** The column of that name, as text. */
  function Value(r: Row, column: string): string {
    if column == "id" then Decimal(r.id)
    else if column == "at" then r.at + "Z"
    else if column == "actor_id" then (if r.actorId == None then "" else Decimal(r.actorId.value))
    else if column == "actor_name" then r.actorName.GetOr("")
    else if column == "action" then r.action
    else if column == "target_type" then r.targetType.GetOr("")
    else if column == "target_id" then r.targetId.GetOr("")
    else if column == "target_name" then r.targetName.GetOr("")
    else if column == "ip" then r.ip.GetOr("")
    else if column == "user_agent" then r.userAgent.GetOr("")
    else if column == "details" then r.details.GetOr("")
    else ""
  }

  lemma TextUnderHeader(r: Row, j: nat)
    requires j < |COLUMNS|
    ensures Texts(r)[j] == Value(r, COLUMNS[j])
  {
  }

  /** Row by row and cell by cell: what is read back is the value the header names, or that behind a ' when a
      spreadsheet would take it for a formula; and nothing read back is a formula. */
  lemma {:induction false} CellsReadBack(rows: seq<Row>, i: nat, j: nat)
    requires i < |rows| && j < |COLUMNS|
    ensures |RecordsGuarded(AllTexts(rows))| == |rows| && |RecordsGuarded(AllTexts(rows))[i]| == |COLUMNS|
    ensures var cell, value := RecordsGuarded(AllTexts(rows))[i][j], Value(rows[i], COLUMNS[j]);
            && (cell != "" ==> cell[0] !in "=+-@\t\r")
            && cell == if value != "" && value[0] in "=+-@\t\r" then "'" + value else value
  {
    RecordAt(rows, i);
    GuardedAt(Texts(rows[i]), j);
    TextUnderHeader(rows[i], j);
    hide Value, Texts, AllTexts, RecordsGuarded, AllGuarded;
    FormulaStarts();
  }

  lemma FormulaStarts()
    ensures forall c: char :: c in ['=', '+', '-', '@', '\t', '\r'] <==> c in "=+-@\t\r"
  {
  }

  lemma {:induction false} RecordAt(rows: seq<Row>, i: nat)
    requires i < |rows|
    ensures |RecordsGuarded(AllTexts(rows))| == |rows|
            && RecordsGuarded(AllTexts(rows))[i] == AllGuarded(Texts(rows[i]))
  {
    RecordsLength(rows[1..]);
    if i > 0 { RecordAt(rows[1..], i - 1); }
  }

  lemma {:induction false} RecordsLength(rows: seq<Row>)
    ensures |RecordsGuarded(AllTexts(rows))| == |rows|
  {
    if rows != [] { RecordsLength(rows[1..]); }
  }

  lemma {:induction false} GuardedAt(cells: seq<string>, j: nat)
    requires j < |cells|
    ensures |AllGuarded(cells)| == |cells| && AllGuarded(cells)[j] == Guarded(cells[j])
    decreases cells
  {
    if |cells| > 1 {
      GuardedAt(cells[1..], if j > 0 then j - 1 else 0);
    }
  }
}
