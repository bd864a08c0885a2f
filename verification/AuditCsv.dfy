/**
 The CSV export of the audit log (server/admin-api.ts:680-690), read back by a
 reader of section 2 of RFC 4180 whose records end in a line feed.
 */
module AuditCsv {

  import opened Text

  /** A value of an audit entry: missing, an object (as its JSON text), or anything with a plain text. */
  datatype Value = Missing | Object(json: string) | Scalar(text: string)

  function TextOf(v: Value): string {
    match v
    case Missing => ""
    case Object(json) => json
    case Scalar(text) => text
  }

  /** A spreadsheet would take the text for a formula. */
  predicate Formula(s: string) { s != "" && s[0] in "=+-@" }

  function Guard(s: string): string { if Formula(s) then "'" + s else s }

  predicate NeedsQuotes(s: string) { exists i | 0 <= i < |s| :: s[i] in "\",\n" }

  /** `safe.replace(/"/g, '""')` */
  function Doubled(s: string): string {
    if s == "" then "" else (if s[0] == '"' then "\"\"" else [s[0]]) + Doubled(s[1..])
  }

  function Written(safe: string): string { if NeedsQuotes(safe) then "\"" + Doubled(safe) + "\"" else safe }

  function Cell(v: Value): string { Written(Guard(TextOf(v))) }

  const COLS: seq<string> := [
    "id", "at", "category", "level", "event", "actor", "target",
    "accountId", "peerId", "roomHash", "ip", "bytes", "status", "detail"]

  /** An audit entry: its time, and its other fields by column. */
  datatype Entry = Entry(at: int, fields: string -> Value)

  function ValueAt(iso: int -> string, e: Entry, col: string): Value {
    if col == "at" then Scalar(iso(e.at)) else e.fields(col)
  }

  function Cells(iso: int -> string, e: Entry): (row: seq<string>)
    ensures |row| == |COLS|
  {
    seq(|COLS|, i requires 0 <= i < |COLS| => Cell(ValueAt(iso, e, COLS[i])))
  }

  function Line(iso: int -> string, e: Entry): string { Join(Cells(iso, e), ",") }

  function Lines(iso: int -> string, entries: seq<Entry>): seq<string> {
    seq(|entries|, i requires 0 <= i < |entries| => Line(iso, entries[i]))
  }

  /** The exported text: the names of the columns, then a line for each entry. */
  function Export(iso: int -> string, entries: seq<Entry>): string {
    Join([Join(COLS, ",")] + Lines(iso, entries), "\n")
  }

  // ---------------------------------------------------------------- the reader

  /** Where in a field the reader is; `Closed` is after a quote that may end the field. */
  datatype Mode = Start | Bare | Quoted | Closed

  datatype Reading = Reading(rows: seq<seq<string>>, row: seq<string>, field: string, mode: Mode)

  /** A character that may stand in a field without quotes. A strict reader takes no carriage return there. */
  predicate TextData(strict: bool, c: char) { c !in "\",\n" && (strict ==> c != '\r') }

  function Next(r: Reading): Reading { Reading(r.rows, r.row + [r.field], "", Start) }

  function EndRecord(r: Reading): Reading { Reading(r.rows + [r.row + [r.field]], [], "", Start) }

  /** One character; `None` when the text is not CSV. */
  function Step(strict: bool, r: Reading, c: char): Option<Reading> {
    match r.mode
    case Quoted => Some(if c == '"' then r.(mode := Closed) else r.(field := r.field + [c]))
    case _ =>
      if c == ',' then Some(Next(r))
      else if c == '\n' then Some(EndRecord(r))
      else if r.mode == Closed then if c == '"' then Some(r.(field := r.field + [c], mode := Quoted)) else None
      else if r.mode == Start && c == '"' then Some(r.(mode := Quoted))
      else if TextData(strict, c) then Some(r.(field := r.field + [c], mode := Bare))
      else None
  }

  function Feed(strict: bool, r: Reading, s: string): Option<Reading>
    decreases |s|
  {
    if s == "" then Some(r)
    else match Step(strict, r, s[0]) { case None => None case Some(q) => Feed(strict, q, s[1..]) }
  }

  /** The end of the text ends a record that has begun; a line feed before it is optional. */
  function Finish(r: Reading): Option<seq<seq<string>>> {
    if r.mode == Quoted then None
    else if r.mode == Start && r.row == [] then Some(r.rows)
    else Some(r.rows + [r.row + [r.field]])
  }

  function Read(strict: bool, s: string): Option<seq<seq<string>>> {
    match Feed(strict, Reading([], [], "", Start), s) { case None => None case Some(r) => Finish(r) }
  }

  // ---------------------------------------------------------------- one cell

  lemma {:induction false} FeedAppend(strict: bool, r: Reading, a: string, b: string)
    ensures Feed(strict, r, a + b) ==
            match Feed(strict, r, a) { case None => None case Some(q) => Feed(strict, q, b) }
    decreases |a|
  {
    if a == "" {
      assert a + b == b;
    } else {
      assert (a + b)[1..] == a[1..] + b;
      match Step(strict, r, a[0])
      case None =>
      case Some(q) => FeedAppend(strict, q, a[1..], b);
    }
  }

  lemma {:induction false} FeedBare(strict: bool, r: Reading, s: string)
    requires r.mode in {Start, Bare} && forall i | 0 <= i < |s| :: TextData(false, s[i])
    ensures Feed(strict, r, s) ==
            if strict && '\r' in s then None
            else Some(r.(field := r.field + s, mode := if s == "" then r.mode else Bare))
    decreases |s|
  {
    if s == "" {
      assert r.field + s == r.field;
    } else if !strict || s[0] != '\r' {
      var q := r.(field := r.field + [s[0]], mode := Bare);
      assert r.field + [s[0]] + s[1..] == r.field + s;
      FeedBare(strict, q, s[1..]);
      assert s == [s[0]] + s[1..];
    }
  }

  lemma FeedOne(strict: bool, r: Reading, c: char)
    requires r.mode == Quoted
    ensures Feed(strict, r, if c == '"' then "\"\"" else [c]) == Some(r.(field := r.field + [c]))
  {
    if c == '"' {
      var closed := r.(mode := Closed);
      assert "\"\""[1..] == "\"" && "\""[1..] == "";
      assert Step(strict, closed, '"') == Some(r.(field := r.field + ['"']));
      assert Feed(strict, closed, "\"") == Some(r.(field := r.field + ['"']));
    }
  }

  lemma {:induction false} FeedDoubled(strict: bool, r: Reading, s: string)
    requires r.mode == Quoted
    ensures Feed(strict, r, Doubled(s)) == Some(r.(field := r.field + s))
    decreases |s|
  {
    if s == "" {
      assert r.field + s == r.field;
    } else {
      var q := r.(field := r.field + [s[0]]);
      var first := if s[0] == '"' then "\"\"" else [s[0]];
      FeedOne(strict, r, s[0]);
      FeedAppend(strict, r, first, Doubled(s[1..]));
      FeedDoubled(strict, q, s[1..]);
      assert r.field + [s[0]] + s[1..] == r.field + s;
    }
  }

  /** A strict reader stumbles over a carriage return that is not in quotes. */
  predicate Stumbles(strict: bool, safe: string) { strict && '\r' in safe && !NeedsQuotes(safe) }

  /** After a cell the reader holds its text and waits for a comma or the end of the record. */
  lemma FeedCell(strict: bool, r: Reading, safe: string)
    requires r.mode == Start && r.field == ""
    ensures match Feed(strict, r, Written(safe)) {
              case None => Stumbles(strict, safe)
              case Some(q) =>
                && !Stumbles(strict, safe) && q == r.(field := safe, mode := q.mode)
                && q.mode != Quoted && (q.mode == Start ==> safe == "")
            }
  {
    if NeedsQuotes(safe) {
      var open := r.(mode := Quoted);
      assert Feed(strict, r, "\"") == Some(open);
      FeedAppend(strict, r, "\"", Doubled(safe) + "\"");
      FeedDoubled(strict, open, safe);
      FeedAppend(strict, open, Doubled(safe), "\"");
      assert "\"" + (Doubled(safe) + "\"") == Written(safe);
      assert r.field + safe == safe;
      assert Feed(strict, r.(field := safe, mode := Quoted), "\"") == Some(r.(field := safe, mode := Closed));
    } else {
      FeedBare(strict, r, safe);
      assert r.field + safe == safe;
    }
  }

  // ---------------------------------------------------------------- a row and a table

  predicate RowStumbles(strict: bool, row: seq<string>) { exists i | 0 <= i < |row| :: Stumbles(strict, row[i]) }

  predicate TableStumbles(strict: bool, rows: seq<seq<string>>) {
    exists i | 0 <= i < |rows| :: RowStumbles(strict, rows[i])
  }

  function WrittenRow(row: seq<string>): string {
    Join(seq(|row|, i requires 0 <= i < |row| => Written(row[i])), ",")
  }

  function WrittenTable(rows: seq<seq<string>>): string {
    Join(seq(|rows|, i requires 0 <= i < |rows| => WrittenRow(rows[i])), "\n")
  }

  lemma RowParts(row: seq<string>)
    requires row != []
    ensures WrittenRow(row) == if |row| == 1 then Written(row[0]) else Written(row[0]) + "," + WrittenRow(row[1..])
  {
    var cells := seq(|row|, i requires 0 <= i < |row| => Written(row[i]));
    assert cells[1..] == seq(|row[1..]|, i requires 0 <= i < |row[1..]| => Written(row[1..][i]));
  }

  lemma TableParts(rows: seq<seq<string>>)
    requires rows != []
    ensures WrittenTable(rows) ==
            if |rows| == 1 then WrittenRow(rows[0]) else WrittenRow(rows[0]) + "\n" + WrittenTable(rows[1..])
  {
    var lines := seq(|rows|, i requires 0 <= i < |rows| => WrittenRow(rows[i]));
    assert lines[1..] == seq(|rows[1..]|, i requires 0 <= i < |rows[1..]| => WrittenRow(rows[1..][i]));
  }

  /** What the reader holds after a row: all its fields, the last one not yet closed by a line feed. */
  predicate HoldsRow(r: Reading, rows: seq<seq<string>>, row: seq<string>) {
    && r.rows == rows && r.mode != Quoted && r.row + [r.field] == row
    && (r.mode == Start ==> r.field == "")
  }

  lemma FeedCellComma(strict: bool, r: Reading, safe: string, more: string)
    requires r.mode == Start && r.field == ""
    ensures Feed(strict, r, Written(safe) + "," + more) ==
            if Stumbles(strict, safe) then None else Feed(strict, r.(row := r.row + [safe]), more)
  {
    FeedCell(strict, r, safe);
    FeedAppend(strict, r, Written(safe), "," + more);
    assert Written(safe) + ("," + more) == Written(safe) + "," + more;
    assert ("," + more)[1..] == more;
  }

  lemma {:induction false} FeedRow(strict: bool, r: Reading, row: seq<string>)
    requires row != [] && r.mode == Start && r.field == ""
    ensures match Feed(strict, r, WrittenRow(row)) {
              case None => RowStumbles(strict, row)
              case Some(q) => !RowStumbles(strict, row) && HoldsRow(q, r.rows, r.row + row)
            }
    decreases |row|
  {
    RowParts(row);
    RowStumblesParts(strict, row);
    assert row == [row[0]] + row[1..];
    if |row| == 1 {
      FeedCell(strict, r, row[0]);
    } else {
      FeedCellComma(strict, r, row[0], WrittenRow(row[1..]));
      if !Stumbles(strict, row[0]) {
        FeedRow(strict, r.(row := r.row + [row[0]]), row[1..]);
        Associative(r.row, [row[0]], row[1..]);
      }
    }
  }

  lemma RowStumblesParts(strict: bool, row: seq<string>)
    requires row != []
    ensures RowStumbles(strict, row) <==> Stumbles(strict, row[0]) || RowStumbles(strict, row[1..])
  {
    if RowStumbles(strict, row) {
      var i :| 0 <= i < |row| && Stumbles(strict, row[i]);
      assert i > 0 ==> row[1..][i - 1] == row[i];
    }
    if RowStumbles(strict, row[1..]) {
      var i :| 0 <= i < |row[1..]| && Stumbles(strict, row[1..][i]);
      assert row[i + 1] == row[1..][i];
    }
  }

  lemma TableStumblesParts(strict: bool, rows: seq<seq<string>>)
    requires rows != []
    ensures TableStumbles(strict, rows) <==> RowStumbles(strict, rows[0]) || TableStumbles(strict, rows[1..])
  {
    if TableStumbles(strict, rows) {
      var i :| 0 <= i < |rows| && RowStumbles(strict, rows[i]);
      assert i > 0 ==> rows[1..][i - 1] == rows[i];
    }
    if TableStumbles(strict, rows[1..]) {
      var i :| 0 <= i < |rows[1..]| && RowStumbles(strict, rows[1..][i]);
      assert rows[i + 1] == rows[1..][i];
    }
  }

  lemma {:induction false} FeedTable(strict: bool, r: Reading, rows: seq<seq<string>>)
    requires rows != [] && forall i | 0 <= i < |rows| :: |rows[i]| >= 2
    requires r.mode == Start && r.field == "" && r.row == []
    ensures match Feed(strict, r, WrittenTable(rows)) {
              case None => TableStumbles(strict, rows)
              case Some(q) => !TableStumbles(strict, rows) && Finish(q) == Some(r.rows + rows)
            }
    decreases |rows|
  {
    TableParts(rows);
    FeedRow(strict, r, rows[0]);
    assert [] + rows[0] == rows[0];
    TableStumblesParts(strict, rows);
    if |rows| == 1 {
      assert rows == [rows[0]] && !TableStumbles(strict, rows[1..]);
    } else {
      var more := WrittenTable(rows[1..]);
      FeedAppend(strict, r, WrittenRow(rows[0]), "\n" + more);
      assert WrittenRow(rows[0]) + ("\n" + more) == WrittenTable(rows);
      if !RowStumbles(strict, rows[0]) {
        var q := Feed(strict, r, WrittenRow(rows[0])).value;
        assert ("\n" + more)[1..] == more;
        FeedTable(strict, EndRecord(q), rows[1..]);
        assert r.rows + [rows[0]] + rows[1..] == r.rows + rows;
      }
    }
  }

  /** Any table of at least two columns is read back, unless the reader is strict about a bare carriage return. */
  lemma TableRead(strict: bool, rows: seq<seq<string>>)
    requires rows != [] && forall i | 0 <= i < |rows| :: |rows[i]| >= 2
    ensures Read(strict, WrittenTable(rows)) == if TableStumbles(strict, rows) then None else Some(rows)
  {
    FeedTable(strict, Reading([], [], "", Start), rows);
    assert [] + rows == rows;
  }

  // ---------------------------------------------------------------- the export

  /** The texts that the cells of an entry stand for. */
  function GuardedRow(iso: int -> string, e: Entry): (row: seq<string>)
    ensures |row| == |COLS|
  {
    seq(|COLS|, i requires 0 <= i < |COLS| => Guard(TextOf(ValueAt(iso, e, COLS[i]))))
  }

  function GuardedRows(iso: int -> string, entries: seq<Entry>): seq<seq<string>> {
    seq(|entries|, i requires 0 <= i < |entries| => GuardedRow(iso, entries[i]))
  }

  function GuardedTable(iso: int -> string, entries: seq<Entry>): seq<seq<string>> {
    [COLS] + GuardedRows(iso, entries)
  }

  predicate Plain(s: string) { forall i | 0 <= i < |s| :: IsAlpha(s[i]) }

  lemma ColsPlain()
    ensures forall i | 0 <= i < |COLS| :: Plain(COLS[i])
  {
    assert Plain("id") && Plain("at") && Plain("category") && Plain("level") && Plain("event");
    assert Plain("actor") && Plain("target") && Plain("accountId") && Plain("peerId");
    assert Plain("roomHash") && Plain("ip") && Plain("bytes") && Plain("status") && Plain("detail");
  }

  /** The header is the table's first row: no name needs quotes. */
  lemma HeaderRow()
    ensures WrittenRow(COLS) == Join(COLS, ",") && forall strict :: !RowStumbles(strict, COLS)
  {
    ColsPlain();
    forall i | 0 <= i < |COLS| ensures Written(COLS[i]) == COLS[i] && '\r' !in COLS[i] {
      assert Plain(COLS[i]);
    }
    assert seq(|COLS|, i requires 0 <= i < |COLS| => Written(COLS[i])) == COLS;
  }

  lemma EntryLine(iso: int -> string, e: Entry)
    ensures WrittenRow(GuardedRow(iso, e)) == Line(iso, e)
  {
    var g := GuardedRow(iso, e);
    assert seq(|g|, i requires 0 <= i < |g| => Written(g[i])) == Cells(iso, e);
  }

  lemma {:induction false} EntryLines(iso: int -> string, entries: seq<Entry>)
    ensures |GuardedRows(iso, entries)| == |Lines(iso, entries)|
    ensures forall i | 0 <= i < |entries| :: WrittenRow(GuardedRows(iso, entries)[i]) == Lines(iso, entries)[i]
  {
    forall i | 0 <= i < |entries| ensures WrittenRow(GuardedRows(iso, entries)[i]) == Lines(iso, entries)[i] {
      EntryLine(iso, entries[i]);
    }
  }

  lemma SameLines(head: seq<string>, rows: seq<seq<string>>, lines: seq<string>)
    requires |rows| == |lines| && forall i | 0 <= i < |rows| :: WrittenRow(rows[i]) == lines[i]
    ensures WrittenTable([head] + rows) == Join([WrittenRow(head)] + lines, "\n")
  {
    var all := [head] + rows;
    assert seq(|all|, i requires 0 <= i < |all| => WrittenRow(all[i])) == [WrittenRow(head)] + lines;
  }

  lemma ExportTable(iso: int -> string, entries: seq<Entry>)
    ensures Export(iso, entries) == WrittenTable(GuardedTable(iso, entries))
  {
    HeaderRow();
    EntryLines(iso, entries);
    SameLines(COLS, GuardedRows(iso, entries), Lines(iso, entries));
  }

  /**
   Main result: whatever the entries hold, the reader gets the column names and
   then, entry by entry and column by column, the guarded texts. A reader that
   takes no bare carriage return fails exactly when a cell that needed no
   quotes holds one.
   */
  lemma ExportRead(strict: bool, iso: int -> string, entries: seq<Entry>)
    ensures var t := GuardedTable(iso, entries);
            Read(strict, Export(iso, entries)) == if TableStumbles(strict, t) then None else Some(t)
  {
    ExportTable(iso, entries);
    TableRead(strict, GuardedTable(iso, entries));
  }

  /** Main result: with line feeds as record ends and nothing else special, every export is read back. */
  lemma ExportBack(iso: int -> string, entries: seq<Entry>)
    ensures Read(false, Export(iso, entries)) == Some(GuardedTable(iso, entries))
  {
    ExportRead(false, iso, entries);
  }

  /**
   Main result: what is read back of an entry, under the names of the columns,
   is its guarded time in the second column and the guarded fields by their names.
   */
  lemma ColumnsBack(iso: int -> string, entries: seq<Entry>, table: seq<seq<string>>, i: nat, k: nat)
    requires Read(false, Export(iso, entries)) == Some(table) && i < |entries| && k < |COLS|
    ensures |table| == |entries| + 1 && table[0] == COLS && |table[i + 1]| == |COLS|
    ensures table[i + 1][k] == Guard(if k == 1 then iso(entries[i].at) else TextOf(entries[i].fields(COLS[k])))
  {
    ExportBack(iso, entries);
    TableAt(iso, entries, i);
    ColsAt(k);
    ColumnAt(iso, entries[i], k, COLS[k]);
  }

  lemma TableAt(iso: int -> string, entries: seq<Entry>, i: nat)
    requires i < |entries|
    ensures var t := GuardedTable(iso, entries);
            |t| == |entries| + 1 && t[0] == COLS && t[i + 1] == GuardedRow(iso, entries[i])
  {}

  lemma ColumnAt(iso: int -> string, e: Entry, k: nat, col: string)
    requires k < |COLS| && col == COLS[k]
    ensures GuardedRow(iso, e)[k] == Guard(TextOf(if col == "at" then Scalar(iso(e.at)) else e.fields(col)))
  {}

  lemma ColsAt(k: nat)
    requires k < |COLS|
    ensures |COLS| == 14 && (COLS[k] == "at" <==> k == 1)
  {}

  /** No text that is read back is a formula, and two values read alike only when one is the other with the guard. */
  lemma GuardedTexts(a: string, b: string)
    ensures !Formula(Guard(a))
    ensures Guard(a) == a <==> !Formula(a)
    ensures Guard(a) == Guard(b) <==> a == b || (Formula(a) && b == "'" + a) || (Formula(b) && a == "'" + b)
  {
    if Formula(a) && Formula(b) && Guard(a) == Guard(b) {
      assert Guard(a)[1..] == a && Guard(b)[1..] == b;
    }
    assert Formula(a) ==> Guard(a)[0] == '\'';
    assert Formula(b) ==> Guard(b)[0] == '\'';
  }
}
