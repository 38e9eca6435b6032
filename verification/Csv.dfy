/** The CSV overview of the audit log, and a reader of section 2 of RFC 4180 that gets
    every field back. */
module Csv {
  import opened Wrappers
  import opened Decimal
  import opened Lists

  const CRLF := "\r\n"

  predicate IsSpecial(c: char) { c == ',' || c == '"' || c == '\n' || c == '\r' }

  // ---- writing ---------------------------------------------------------------------------

  /** Every quote written twice. */
  function Doubled(text: string): string {
    if text == "" then "" else (if text[0] == '"' then "\"\"" else [text[0]]) + Doubled(text[1..])
  }

  /** `csv_field`: in quotes as soon as it needs them. */
  function CsvField(text: string): string {
    if NeedsQuotes(text) then "\"" + Doubled(text) + "\"" else text
  }

  /** A value of a record's `data`; `Json` is any other value, as JSON. */
  datatype Value = Null | Text(text: string) | Json(rendered: string)

  datatype Record = Record(number: nat, ts: string, session: string, kind: string, data: map<string, Value>,
                           hash: string)

  function Data(record: Record, name: string): string {
    if name !in record.data then ""
    else
      match record.data[name]
      case Null => ""
      case Text(text) => text
      case Json(rendered) => rendered
  }

  const COLUMNS := ["seq", "ts", "session", "kind", "flow", "host", "method", "decision", "rule", "status", "size",
                    "hash"]

  /** The twelve fields of a row, column by column. */
  function Fields(record: Record): (fields: seq<string>)
    ensures |fields| == |COLUMNS| == 12
  {
    [Digits(record.number), record.ts, record.session, record.kind,
     Data(record, "flow"), Data(record, "host"), Data(record, "method"), Data(record, "decision"),
     Data(record, "rule"), Data(record, "status"), Data(record, "size"), record.hash]
  }

  function Row(fields: seq<string>): string
    requires fields != []
  {
    Join(seq(|fields|, i requires 0 <= i < |fields| => CsvField(fields[i])), ',')
  }

  function CsvRow(record: Record): string { Row(Fields(record)) }

  /** A document: each row with its CRLF. */
  function Document(rows: seq<seq<string>>): string
    requires forall i | 0 <= i < |rows| :: rows[i] != []
  {
    if rows == [] then "" else Row(rows[0]) + CRLF + Document(rows[1..])
  }

  // ---- reading ---------------------------------------------------------------------------

  /** What was read, and the text behind it. */
  datatype Out<+T> = Ok(value: T, rest: string) | Bad

  /** The rest of a quoted field, up to the quote that is not doubled. */
  function ReadQuoted(text: string, out: string): (r: Out<string>)
    ensures r.Ok? ==> |r.rest| < |text|
  {
    if text == "" then Bad
    else if text[0] != '"' then ReadQuoted(text[1..], out + [text[0]])
    else if |text| > 1 && text[1] == '"' then ReadQuoted(text[2..], out + "\"")
    else Ok(out, text[1..])
  }

  function ReadPlain(text: string, out: string): (r: Out<string>)
    ensures r.Ok? && |r.rest| <= |text|
  {
    if text == "" || IsSpecial(text[0]) then Ok(out, text) else ReadPlain(text[1..], out + [text[0]])
  }

  function ReadField(text: string): (r: Out<string>)
    ensures r.Ok? ==> |r.rest| <= |text|
  {
    if text != "" && text[0] == '"' then ReadQuoted(text[1..], "") else ReadPlain(text, "")
  }

  /** One row, with its line break. */
  function ReadRow(text: string, fields: seq<string>): (r: Out<seq<string>>)
    ensures r.Ok? ==> |r.rest| < |text|
    decreases |text|
  {
    match ReadField(text)
    case Bad => Bad
    case Ok(field, rest) =>
      if rest != "" && rest[0] == ',' then ReadRow(rest[1..], fields + [field])
      else if CRLF <= rest then Ok(fields + [field], rest[2..])
      else Bad
  }

  function ReadDocument(text: string): Option<seq<seq<string>>>
    decreases |text|
  {
    if text == "" then Some([])
    else
      match ReadRow(text, [])
      case Bad => None
      case Ok(row, rest) =>
        match ReadDocument(rest)
        case None => None
        case Some(rows) => Some([row] + rows)
  }

  // ---- the round trip ----------------------------------------------------------------------

  /** One step of the reader inside quotes: another character, a doubled quote, the end. */
  lemma {:induction false} QuotedStep(c: char, tail: string, out: string)
    ensures c != '"' ==> ReadQuoted([c] + tail, out) == ReadQuoted(tail, out + [c])
    ensures ReadQuoted("\"\"" + tail, out) == ReadQuoted(tail, out + "\"")
    ensures (tail != "" ==> tail[0] != '"') ==> ReadQuoted("\"" + tail, out) == Ok(out, tail)
  {
  }

  lemma {:induction false} QuotedReads(text: string, rest: string, out: string)
    requires rest != "" ==> rest[0] != '"'
    ensures ReadQuoted(Doubled(text) + "\"" + rest, out) == Ok(out + text, rest)
  {
    hide ReadQuoted;
    if text == "" {
      assert Doubled(text) + "\"" + rest == "\"" + rest && out + text == out;
      QuotedStep('"', rest, out);
    } else {
      var tail := Doubled(text[1..]) + "\"" + rest;
      QuotedReads(text[1..], rest, out + [text[0]]);
      QuotedStep(text[0], tail, out);
      assert out + [text[0]] + text[1..] == out + text;
      assert Doubled(text) + "\"" + rest == (if text[0] == '"' then "\"\"" else [text[0]]) + tail;
    }
  }

  lemma {:induction false} PlainReads(text: string, rest: string, out: string)
    requires forall i | 0 <= i < |text| :: !IsSpecial(text[i])
    requires rest != "" && IsSpecial(rest[0])
    ensures ReadPlain(text + rest, out) == Ok(out + text, rest)
  {
    if text == "" {
      assert text + rest == rest && out + text == out;
    } else {
      assert (text + rest)[1..] == text[1..] + rest;
      PlainReads(text[1..], rest, out + [text[0]]);
      assert out + [text[0]] + text[1..] == out + text;
    }
  }

  predicate NeedsQuotes(text: string) { exists i | 0 <= i < |text| :: IsSpecial(text[i]) }

  /** A field is read back whatever it holds, if a comma or a line break follows. */
  lemma FieldReads(text: string, rest: string)
    requires rest != "" && (rest[0] == ',' || rest[0] == '\r')
    ensures ReadField(CsvField(text) + rest) == Ok(text, rest)
  {
    hide ReadQuoted, ReadPlain, Doubled;
    assert "" + text == text;
    if NeedsQuotes(text) {
      QuotedReads(text, rest, "");
      assert (CsvField(text) + rest)[1..] == Doubled(text) + "\"" + rest;
    } else {
      PlainReads(text, rest, "");
      assert text == "" ==> text + rest == rest;
      assert text != "" ==> !IsSpecial(text[0]) && (text + rest)[0] == text[0];
    }
  }

  function Quoted(fields: seq<string>): (r: seq<string>)
    ensures |r| == |fields|
  {
    seq(|fields|, i requires 0 <= i < |fields| => CsvField(fields[i]))
  }

  /** One field of a row, and what stands behind it. */
  lemma {:induction false} RowStep(text: string, field: string, rest: string, before: seq<string>)
    requires ReadField(text) == Ok(field, rest)
    ensures rest != "" && rest[0] == ',' ==> ReadRow(text, before) == ReadRow(rest[1..], before + [field])
    ensures CRLF <= rest ==> ReadRow(text, before) == Ok(before + [field], rest[2..])
  {
  }

  lemma RowText(fields: seq<string>, line: string)
    requires fields != []
    ensures Row(fields) + line ==
            CsvField(fields[0]) + if |fields| == 1 then line else "," + (Row(fields[1..]) + line)
  {
    hide CsvField;
    var more := Quoted(fields);
    assert Row(fields) == Join(more, ',');
    if |fields| > 1 {
      assert more[1..] == Quoted(fields[1..]);
      assert more[0] + [','] + Join(more[1..], ',') + line == more[0] + ("," + (Join(more[1..], ',') + line));
    }
  }

  lemma {:induction false} RowReads(fields: seq<string>, rest: string, before: seq<string>)
    requires fields != []
    ensures ReadRow(Row(fields) + CRLF + rest, before) == Ok(before + fields, rest)
    decreases |fields|
  {
    hide ReadField, ReadRow, CsvField, Row;
    var line := CRLF + rest;
    var text := Row(fields) + line;
    assert Row(fields) + CRLF + rest == text;
    RowText(fields, line);
    if |fields| == 1 {
      FieldReads(fields[0], line);
      RowStep(text, fields[0], line, before);
      assert line[2..] == rest && before + [fields[0]] == before + fields;
    } else {
      var next := Row(fields[1..]) + line;
      FieldReads(fields[0], "," + next);
      RowStep(text, fields[0], "," + next, before);
      assert ("," + next)[1..] == next == Row(fields[1..]) + CRLF + rest;
      RowReads(fields[1..], rest, before + [fields[0]]);
      assert before + [fields[0]] + fields[1..] == before + fields;
    }
  }

  /** Every document reads back as its rows, whatever the fields hold. */
  lemma {:induction false} DocumentReads(rows: seq<seq<string>>)
    requires forall i | 0 <= i < |rows| :: rows[i] != []
    ensures ReadDocument(Document(rows)) == Some(rows)
  {
    if rows != [] {
      RowReads(rows[0], Document(rows[1..]), []);
      DocumentReads(rows[1..]);
      assert [] + rows[0] == rows[0] && [rows[0]] + rows[1..] == rows;
    }
  }

  function HeaderAndRows(records: seq<Record>): (rows: seq<seq<string>>)
    ensures |rows| == |records| + 1
    ensures forall i | 0 <= i < |rows| :: |rows[i]| == 12
  {
    [COLUMNS] + seq(|records|, i requires 0 <= i < |records| => Fields(records[i]))
  }

  /** The overview gives back the twelve fields of every record, in order; so records
      with different fields never share a row. */
  lemma OverviewReads(records: seq<Record>)
    ensures ReadDocument(Document(HeaderAndRows(records))) == Some(HeaderAndRows(records))
  {
    DocumentReads(HeaderAndRows(records));
  }

  lemma RowsAreInjective(a: seq<string>, b: seq<string>)
    requires a != [] && b != [] && Row(a) == Row(b)
    ensures a == b
  {
    RowReads(a, "", []);
    RowReads(b, "", []);
    assert [] + a == a && [] + b == b;
  }

  /** The number of a record can be read off its row. */
  lemma {:induction false} DigitsAreInjective(m: nat, n: nat)
    requires Digits(m) == Digits(n)
    ensures m == n
  {
    assert (m >= 10 ==> |Digits(m)| >= 2) && (n >= 10 ==> |Digits(n)| >= 2);
    if m >= 10 && n >= 10 {
      assert Digits(m)[..|Digits(m)| - 1] == Digits(m / 10) && Digits(n)[..|Digits(n)| - 1] == Digits(n / 10);
      DigitsAreInjective(m / 10, n / 10);
      assert Digits(m)[|Digits(m)| - 1] == DigitChar(m % 10) && Digits(n)[|Digits(n)| - 1] == DigitChar(n % 10);
    }
  }

  lemma RowNamesItsRecord(a: Record, b: Record)
    requires CsvRow(a) == CsvRow(b)
    ensures a.number == b.number && a.ts == b.ts && a.session == b.session && a.kind == b.kind && a.hash == b.hash
  {
    RowsAreInjective(Fields(a), Fields(b));
    assert Fields(a)[0] == Digits(a.number) && Fields(b)[0] == Digits(b.number);
    DigitsAreInjective(a.number, b.number);
    assert Fields(a)[1] == a.ts && Fields(a)[2] == a.session && Fields(a)[3] == a.kind && Fields(a)[11] == a.hash;
    assert Fields(b)[1] == b.ts && Fields(b)[2] == b.session && Fields(b)[3] == b.kind && Fields(b)[11] == b.hash;
  }
}
