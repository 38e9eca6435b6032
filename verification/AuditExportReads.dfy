/** What a reader finds in a finished export: in the log's lines those of the range, in the
    table a cell for each column by its name; and which bad line an export names. */
module AuditExportReads {
  import opened Wrappers
  import opened Csv
  import opened Decimal
  import opened AuditExport

  // ---- the table by its column names -----------------------------------------------------------

  /** The cell of a row under the column of that name. */
  function Cell(header: seq<string>, row: seq<string>, column: string): Option<string> {
    if header == [] || row == [] then None
    else if header[0] == column then Some(row[0])
    else Cell(header[1..], row[1..], column)
  }

  /** The text of a field of `data`: nothing if it is missing or null. */
  predicate IsText(data: map<string, Value>, name: string, text: string) {
    && (name !in data || data[name].Null? ==> text == "")
    && (name in data && data[name].Text? ==> text == data[name].text)
    && (name in data && data[name].Json? ==> text == data[name].rendered)
  }

  /** The row tells the record: its own fields and those of its data, each in its column. */
  ghost predicate Tells(header: seq<string>, row: seq<string>, record: Record) {
    && (exists digits :: Cell(header, row, "seq") == Some(digits) && AreDigits(digits)
          && NumberOf(digits) == record.number)
    && Cell(header, row, "ts") == Some(record.ts) && Cell(header, row, "session") == Some(record.session)
    && Cell(header, row, "kind") == Some(record.kind) && Cell(header, row, "hash") == Some(record.hash)
    && TellsData(header, row, record.data, "flow") && TellsData(header, row, record.data, "host")
    && TellsData(header, row, record.data, "method") && TellsData(header, row, record.data, "decision")
    && TellsData(header, row, record.data, "rule") && TellsData(header, row, record.data, "status")
    && TellsData(header, row, record.data, "size")
  }

  ghost predicate TellsData(header: seq<string>, row: seq<string>, data: map<string, Value>, name: string) {
    exists text :: Cell(header, row, name) == Some(text) && IsText(data, name, text)
  }

  const HEADER := ["seq", "ts", "session", "kind", "flow", "host", "method", "decision", "rule", "status", "size",
                   "hash"]

  lemma {:induction false} CellAt(header: seq<string>, row: seq<string>, k: nat)
    requires k < |header| && k < |row| && forall i | 0 <= i < k :: header[i] != header[k]
    ensures Cell(header, row, header[k]) == Some(row[k])
  {
    if k > 0 {
      CellAt(header[1..], row[1..], k - 1);
    }
  }

  lemma HeaderNames()
    ensures COLUMNS == HEADER && |HEADER| == 12
    ensures forall i, j | 0 <= i < j < 12 :: HEADER[i] != HEADER[j]
  {
    FirstLetters();
    assert "status"[1] != "size"[1] && "session"[2] != "seq"[2] && "host"[1] != "hash"[1];
    assert "status"[1] != "session"[1] && "status"[1] != "seq"[1];
    assert "size"[1] != "session"[1] && "size"[1] != "seq"[1];
  }

  lemma FirstLetters()
    ensures forall i | 0 <= i < 12 :: |HEADER[i]| >= 2
    ensures seq(12, i requires 0 <= i < 12 => HEADER[i][0]) == "stskfhmdrssh"
  {
  }

  lemma CellOf(record: Record, k: nat)
    requires k < 12
    ensures Cell(HEADER, Fields(record), HEADER[k]) == Some(Fields(record)[k])
  {
    HeaderNames();
    hide HEADER, Fields;
    CellAt(HEADER, Fields(record), k);
  }

  lemma DataIs(record: Record, name: string)
    ensures IsText(record.data, name, Data(record, name))
  {
  }

  lemma FieldsByColumn(record: Record)
    ensures forall k | 4 <= k < 11 :: Fields(record)[k] == Data(record, HEADER[k])
    ensures Fields(record)[0] == Digits(record.number) && Fields(record)[1] == record.ts
    ensures Fields(record)[2] == record.session && Fields(record)[3] == record.kind && Fields(record)[11] == record.hash
  {
    hide Data, Digits;
  }

  lemma RowTellsData(record: Record)
    ensures forall k | 4 <= k < 11 :: TellsData(HEADER, Fields(record), record.data, HEADER[k])
  {
    HeaderNames();
    FieldsByColumn(record);
    hide HEADER, Fields, Cell, Data, IsText;
    forall k | 4 <= k < 11
      ensures TellsData(HEADER, Fields(record), record.data, HEADER[k])
    {
      CellOf(record, k);
      DataIs(record, HEADER[k]);
    }
  }

  lemma RowTells(record: Record)
    ensures Tells(HEADER, Fields(record), record)
  {
    HeaderNames();
    FieldsByColumn(record);
    RowTellsData(record);
    DigitsWriteTheNumber(record.number);
    CellOf(record, 0);
    CellOf(record, 1);
    CellOf(record, 2);
    CellOf(record, 3);
    CellOf(record, 11);
    hide Cell, NumberOf, Digits, AreDigits, Fields, TellsData;
    assert TellsData(HEADER, Fields(record), record.data, HEADER[4])
        && TellsData(HEADER, Fields(record), record.data, HEADER[5])
        && TellsData(HEADER, Fields(record), record.data, HEADER[6])
        && TellsData(HEADER, Fields(record), record.data, HEADER[7])
        && TellsData(HEADER, Fields(record), record.data, HEADER[8])
        && TellsData(HEADER, Fields(record), record.data, HEADER[9])
        && TellsData(HEADER, Fields(record), record.data, HEADER[10]);
  }

  // ---- which lines are read ----------------------------------------------------------------------

  predicate IsRecord(r: Reading, line: string) { r.parse(line).Some? }

  function RecordOf(r: Reading, line: string): Record
    requires IsRecord(r, line)
  {
    r.parse(line).value
  }

  /** The number read before the line at `i`. */
  function NumberBefore(r: Reading, lines: seq<string>, i: nat, last: nat): nat
    requires i <= |lines| && forall j | 0 <= j < i :: IsRecord(r, lines[j])
  {
    if i == 0 then last else RecordOf(r, lines[i - 1]).number
  }

  predicate IsBelow(until: Option<nat>, number: nat) { until.Some? ==> number < until.value }

  /** The first `k` lines are records, each with a number below the end before it. */
  ghost predicate ReadsOn(r: Reading, until: Option<nat>, lines: seq<string>, k: nat, last: nat) {
    && k <= |lines| && (forall i | 0 <= i < k :: IsRecord(r, lines[i]))
    && forall i | 0 <= i < k :: IsBelow(until, NumberBefore(r, lines, i, last))
  }

  lemma ReadsOneMore(r: Reading, until: Option<nat>, lines: seq<string>, k: nat, last: nat)
    requires lines != [] && IsRecord(r, lines[0]) && IsBelow(until, last)
    requires ReadsOn(r, until, lines[1..], k, RecordOf(r, lines[0]).number)
    ensures ReadsOn(r, until, lines, k + 1, last)
    ensures NumberBefore(r, lines, k + 1, last) == NumberBefore(r, lines[1..], k, RecordOf(r, lines[0]).number)
  {
    var first := RecordOf(r, lines[0]).number;
    forall i | 0 <= i < k + 1
      ensures IsRecord(r, lines[i])
    {
      assert i > 0 ==> lines[i] == lines[1..][i - 1];
    }
    forall i | 0 <= i < k + 1
      ensures IsBelow(until, NumberBefore(r, lines, i, last))
    {
      if i > 0 {
        assert NumberBefore(r, lines, i, last) == NumberBefore(r, lines[1..], i - 1, first);
      }
    }
  }

  /** An export ends at the end of the log or at the reported end, with what it chose of the
      lines before, or at the first line before that end that is no record, with its number. */
  lemma {:induction false} ExportedIs(r: Reading, format: Format, until: Option<nat>, lines: seq<string>,
                                      number: nat, last: nat) returns (k: nat)
    ensures ReadsOn(r, until, lines, k, last)
    ensures match Exported(r, format, until, lines, number, last)
      case Success(output) =>
        && Success(output) == Shown(r, format, lines[..k])
        && (k == |lines| || !IsBelow(until, NumberBefore(r, lines, k, last)))
      case Failure(error) =>
        && k < |lines| && !IsRecord(r, lines[k]) && IsBelow(until, NumberBefore(r, lines, k, last))
        && error == NotARecord(number + k + 1)
    decreases |lines|
  {
    hide Shown, Added, Entry, ReadsOn;
    k := 0;
    assert lines[..0] == [];
    ShownNone(r, format);
    assert ReadsOn(r, until, lines, 0, last) by { NothingRead(r, until, lines, last); }
    if lines != [] && IsBelow(until, last) && IsRecord(r, lines[0]) {
      var record := RecordOf(r, lines[0]);
      var more := ExportedIs(r, format, until, lines[1..], number + 1, record.number);
      k := more + 1;
      ReadsOneMore(r, until, lines, more, last);
      LengthOfRead(r, until, lines, k, last);
      assert lines[..k] == [lines[0]] + lines[1..][..more];
      ShownCons(r, format, lines[0], lines[1..][..more]);
      AddedSucceeds(Entry(format, lines[0], record), 1,
                    Exported(r, format, until, lines[1..], number + 1, record.number));
    }
  }

  lemma NothingRead(r: Reading, until: Option<nat>, lines: seq<string>, last: nat)
    ensures ReadsOn(r, until, lines, 0, last)
  {
  }

  lemma LengthOfRead(r: Reading, until: Option<nat>, lines: seq<string>, k: nat, last: nat)
    requires ReadsOn(r, until, lines, k, last)
    ensures k <= |lines|
  {
  }

  lemma AddedSucceeds(body: string, count: nat, rest: Result<Output, Error>)
    ensures Added(body, count, rest).Success? == rest.Success?
    ensures rest.Failure? ==> Added(body, count, rest) == rest
  {
  }

  // ---- the whole document ------------------------------------------------------------------------

  lemma {:induction false} EntriesAreRows(r: Reading, lines: seq<string>) returns (rows: seq<seq<string>>)
    requires forall i | 0 <= i < |lines| :: IsRecord(r, lines[i])
    ensures |rows| == |lines| && forall i | 0 <= i < |rows| :: rows[i] != []
    ensures forall i | 0 <= i < |rows| :: Tells(HEADER, rows[i], RecordOf(r, lines[i]))
    ensures Document(rows) == Entries(r, AsCsv, lines)
  {
    hide Row, Tells;
    rows := [];
    if lines != [] {
      var rest := EntriesAreRows(r, lines[1..]);
      var record := RecordOf(r, lines[0]);
      rows := [Fields(record)] + rest;
      RowTells(record);
      assert rows[1..] == rest;
      forall i | 0 <= i < |rows|
        ensures Tells(HEADER, rows[i], RecordOf(r, lines[i]))
      {
        if i > 0 {
          assert rows[i] == rest[i - 1] && lines[i] == lines[1..][i - 1];
        }
      }
    }
  }

  lemma {:induction false} EntriesAreLines(r: Reading, lines: seq<string>)
    requires forall i | 0 <= i < |lines| :: IsRecord(r, lines[i])
    ensures Entries(r, Jsonl, lines) == LogOf(lines)
  {
    if lines != [] {
      EntriesAreLines(r, lines[1..]);
      assert lines[0] + "\n" + LogOf(lines[1..]) == LogOf(lines);
    }
  }

  lemma {:induction false} ChosenAreRecords(r: Reading, lines: seq<string>)
    ensures forall i | 0 <= i < |Chosen(r, lines)| :: IsRecord(r, Chosen(r, lines)[i])
  {
    if lines != [] {
      ChosenAreRecords(r, lines[1..]);
    }
  }

  /** A finished JSON export is the chosen lines as they stand in the log, and no header. */
  lemma JsonlReads(r: Reading, until: Option<nat>, log: string) returns (k: nat)
    requires ExportOf(r, Jsonl, until, log).Success?
    ensures var lines, output := LinesFrom(log, 0), ExportOf(r, Jsonl, until, log).value;
      && ReadsOn(r, until, lines, k, 0)
      && (k == |lines| || !IsBelow(until, NumberBefore(r, lines, k, 0)))
      && output == Output(LogOf(Chosen(r, lines[..k])), |Chosen(r, lines[..k])|)
  {
    var lines := LinesFrom(log, 0);
    k := ExportedIs(r, Jsonl, until, lines, 0, 0);
    hide LinesFrom, Exported, Entries, Chosen;
    LengthOfRead(r, until, lines, k, 0);
    ChosenAreRecords(r, lines[..k]);
    EntriesAreLines(r, Chosen(r, lines[..k]));
    assert "" + LogOf(Chosen(r, lines[..k])) == LogOf(Chosen(r, lines[..k]));
  }

  /** A finished table reads back as the header and one row for each chosen line, which tells
      its record. */
  lemma CsvReads(r: Reading, until: Option<nat>, log: string) returns (k: nat, rows: seq<seq<string>>)
    requires ExportOf(r, AsCsv, until, log).Success?
    ensures var lines, output := LinesFrom(log, 0), ExportOf(r, AsCsv, until, log).value;
      && ReadsOn(r, until, lines, k, 0)
      && (k == |lines| || !IsBelow(until, NumberBefore(r, lines, k, 0)))
      && ReadDocument(output.content) == Some([HEADER] + rows)
      && output.count == |rows| == |Chosen(r, lines[..k])|
      && (forall i | 0 <= i < |rows| :: IsRecord(r, Chosen(r, lines[..k])[i]))
      && forall i | 0 <= i < |rows| :: Tells(HEADER, rows[i], RecordOf(r, Chosen(r, lines[..k])[i]))
  {
    var lines := LinesFrom(log, 0);
    k := ExportedIs(r, AsCsv, until, lines, 0, 0);
    hide LinesFrom, Exported, Chosen, Tells, ReadDocument, Row;
    LengthOfRead(r, until, lines, k, 0);
    ChosenAreRecords(r, lines[..k]);
    rows := EntriesAreRows(r, Chosen(r, lines[..k]));
    HeaderNames();
    WithHeader(COLUMNS, rows);
  }

  lemma WithHeader(header: seq<string>, rows: seq<seq<string>>)
    requires header != [] && forall i | 0 <= i < |rows| :: rows[i] != []
    ensures ReadDocument(Row(header) + CRLF + Document(rows)) == Some([header] + rows)
  {
    hide ReadDocument, Row, CRLF;
    var all := [header] + rows;
    assert forall i | 0 <= i < |all| :: all[i] != [];
    DocumentReads(all);
    DocumentNext(header, rows);
  }

  lemma {:induction false} DocumentNext(row: seq<string>, rows: seq<seq<string>>)
    requires row != [] && forall i | 0 <= i < |rows| :: rows[i] != []
    requires forall i | 0 <= i < |[row] + rows| :: ([row] + rows)[i] != []
    ensures Document([row] + rows) == Row(row) + CRLF + Document(rows)
  {
    hide Row, CRLF;
    assert ([row] + rows)[1..] == rows;
  }

  /** A failed export names the first line before the reported end that is no record. */
  lemma BadLineIsNamed(r: Reading, format: Format, until: Option<nat>, log: string) returns (k: nat)
    requires ExportOf(r, format, until, log).Failure?
    ensures var lines := LinesFrom(log, 0);
      && ReadsOn(r, until, lines, k, 0) && k < |lines|
      && !IsRecord(r, lines[k]) && IsBelow(until, NumberBefore(r, lines, k, 0))
      && ExportOf(r, format, until, log) == Failure(NotARecord(k + 1))
  {
    k := ExportedIs(r, format, until, LinesFrom(log, 0), 0, 0);
  }

  /** The lines of a log are what stands between its line breaks; a last one may lack its own. */
  lemma LinesOfText(lines: seq<string>, last: string)
    requires forall i | 0 <= i < |lines| :: '\n' !in lines[i]
    requires '\n' !in last
    ensures LinesFrom(LogOf(lines) + last, 0) == lines + LastOf(last)
  {
    hide LinesFrom, LogOf;
    LinesBefore(lines, last, "");
    assert "" + LogOf(lines) + last == LogOf(lines) + last;
  }

  function LastOf(last: string): seq<string> { if last == "" then [] else [last] }

  predicate NoBreak(line: string) { '\n' !in line }

  lemma {:induction false} LinesBefore(lines: seq<string>, last: string, before: string)
    requires NoBreak(last) && forall i | 0 <= i < |lines| :: NoBreak(lines[i])
    ensures LinesFrom(before + LogOf(lines) + last, |before|) == lines + LastOf(last)
    decreases |lines|
  {
    hide LinesFrom, LogOf, NoBreak, LastOf;
    if lines == [] {
      NothingLogged(before, last);
      OnlyLast(before, last);
      assert [] + LastOf(last) == LastOf(last);
    } else {
      var line, rest := lines[0], lines[1..];
      assert forall i | 0 <= i < |rest| :: rest[i] == lines[i + 1];
      LinesBefore(rest, last, before + line + "\n");
      LogSplits(before, lines, last);
      LineComes(before, line, "\n" + LogOf(rest) + last, LogOf(rest) + last);
      assert |before + line + "\n"| == |before| + |line| + 1;
      assert [line] + (rest + LastOf(last)) == lines + LastOf(last);
    }
  }

  lemma NothingLogged(before: string, last: string)
    ensures before + LogOf([]) + last == before + last
  {
  }

  lemma LogSplits(before: string, lines: seq<string>, last: string)
    requires lines != []
    ensures var tail := "\n" + LogOf(lines[1..]) + last;
      && before + LogOf(lines) + last == before + lines[0] + tail
      && before + lines[0] + tail == before + lines[0] + "\n" + (LogOf(lines[1..]) + last)
      && before + lines[0] + "\n" + LogOf(lines[1..]) + last == before + lines[0] + tail
  {
    var rest := LogOf(lines[1..]);
    assert LogOf(lines) == lines[0] + ("\n" + rest);
    Regrouped(before, lines[0], "\n", rest, last);
  }

  lemma Regrouped(a: string, b: string, c: string, d: string, e: string)
    ensures a + (b + (c + d)) + e == a + b + (c + d + e)
    ensures a + b + (c + d + e) == a + b + c + (d + e)
    ensures a + b + c + d + e == a + b + (c + d + e)
  {
    Grouped(a, b, c + d);
    Grouped(a + b, c + d, e);
    Grouped(c, d, e);
    Grouped(a + b, c, d + e);
    Grouped(a + b + c, d, e);
  }

  lemma Grouped(a: string, b: string, c: string)
    ensures a + (b + c) == a + b + c
  {
  }

  lemma LineComes(before: string, line: string, tail: string, rest: string)
    requires NoBreak(line) && tail == "\n" + rest
    ensures LinesFrom(before + line + tail, |before|)
         == [line] + LinesFrom(before + line + tail, |before| + |line| + 1)
  {
    hide LinesFrom, LineEnd;
    EndOfLine(before, line, tail);
    var log := before + line + tail;
    LineByLine(log, |before|);
    assert log[|before|..|before| + |line|] == line;
  }

  lemma OnlyLast(before: string, last: string)
    requires NoBreak(last)
    ensures LinesFrom(before + last, |before|) == LastOf(last)
  {
    hide LinesFrom, LineEnd;
    var log := before + last;
    NoLines(log);
    if last != "" {
      LastLine(before, last);
      LineByLine(log, |before|);
      assert log[|before|..|log|] == last;
      assert LinesFrom(log, |before|)[1..] == [];
    }
  }

  lemma {:induction false} LastLine(before: string, last: string)
    requires '\n' !in last
    ensures LineEnd(before + last, |before|) == |before + last|
    decreases |last|
  {
    if last != "" {
      assert (before + last)[|before|] == last[0];
      assert before + [last[0]] + last[1..] == before + last;
      LastLine(before + [last[0]], last[1..]);
    }
  }
}
