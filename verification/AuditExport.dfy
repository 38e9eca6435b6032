/** The content of an export: the lines of the log in a range of time, up to the end the
    writer reported last. */
module AuditExport {
  import opened Wrappers
  import opened Csv

  datatype Format = Jsonl | AsCsv

  /** What the export needs to know of the records and the range; `line` is read by
      `AuditRecord::from_line` and the time by `TimeRange::contains`, whose bodies are
      not part of this model. */
  datatype Reading = Reading(parse: string -> Option<Record>, contains: string -> bool)

  datatype Error = NotARecord(number: nat)

  // ---- lines -----------------------------------------------------------------------------

  /** The next line of a text without its line break, and how far it goes with it. */
  function LineEnd(log: string, pos: nat): (end: nat)
    requires pos <= |log|
    ensures pos <= end <= |log| && '\n' !in log[pos..end]
    ensures end < |log| ==> log[end] == '\n'
    decreases |log| - pos
  {
    if pos == |log| || log[pos] == '\n' then pos else LineEnd(log, pos + 1)
  }

  function After(log: string, end: nat): (next: nat)
    requires end <= |log|
    ensures end <= next <= |log|
  {
    if end < |log| then end + 1 else end
  }

  /** The lines of a log; the last one may lack its line break, and an empty rest is none. */
  function LinesFrom(log: string, pos: nat): seq<string>
    requires pos <= |log|
    decreases |log| - pos
  {
    if pos == |log| then []
    else
      var end := LineEnd(log, pos);
      assert end == pos ==> log[end] == '\n';
      [log[pos..end]] + LinesFrom(log, After(log, end))
  }

  /** A log of whole lines, as the writer appends it. */
  function LogOf(lines: seq<string>): string {
    if lines == [] then "" else lines[0] + ("\n" + LogOf(lines[1..]))
  }

  // ---- the loop on lines -------------------------------------------------------------------

  function Entry(format: Format, line: string, record: Record): string {
    if format == Jsonl then line + "\n" else CsvRow(record) + CRLF
  }

  datatype Output = Output(content: string, count: nat)

  predicate Reached(until: Option<nat>, lastSeq: nat) { until.Some? && lastSeq >= until.value }

  /** The export of `lines`, `number` lines and `lastSeq` having been read before. */
  function Exported(r: Reading, format: Format, until: Option<nat>, lines: seq<string>, number: nat, lastSeq: nat)
    : Result<Output, Error>
  {
    if Reached(until, lastSeq) || lines == [] then Success(Output("", 0))
    else
      match r.parse(lines[0])
      case None => Failure(NotARecord(number + 1))
      case Some(record) =>
        match Exported(r, format, until, lines[1..], number + 1, record.number)
        case Failure(error) => Failure(error)
        case Success(rest) =>
          if !r.contains(record.ts) then Success(rest)
          else Added(Entry(format, lines[0], record), 1, Success(rest))
  }

  function Header(format: Format): string { if format == AsCsv then Row(COLUMNS) + CRLF else "" }

  /** What was written before, and what an export of the rest gives. */
  function Added(body: string, count: nat, rest: Result<Output, Error>): Result<Output, Error> {
    if rest.Failure? then rest else Success(Output(body + rest.value.content, count + rest.value.count))
  }

  /** The whole document and its count. */
  function ExportOf(r: Reading, format: Format, until: Option<nat>, log: string): Result<Output, Error> {
    Added(Header(format), 0, Exported(r, format, until, LinesFrom(log, 0), 0, 0))
  }

  /** `write_export`, as far as the disk does not fail: reads line by line to the reported
      end, and stops at the first line that is no record. */
  method WriteExport(r: Reading, format: Format, until: Option<nat>, log: string)
    returns (result: Result<Output, Error>)
    ensures result == ExportOf(r, format, until, log)
  {
    hide LinesFrom, Entry, Header, LineEnd;
    var sink := Header(format);
    var pos, count, number, lastSeq := 0, 0, 0, 0;
    ghost var all := Exported(r, format, until, LinesFrom(log, 0), 0, 0);
    while !Reached(until, lastSeq) && pos < |log|
      invariant pos <= |log|
      invariant Added(Header(format), 0, all)
             == Added(sink, count, Exported(r, format, until, LinesFrom(log, pos), number, lastSeq))
      decreases |log| - pos
    {
      var end := LineEnd(log, pos);
      var line := log[pos..end];
      LineByLine(log, pos);
      pos := After(log, end);
      number := number + 1;
      var record := r.parse(line);
      if record.None? {
        return Failure(NotARecord(number));
      }
      lastSeq := record.value.number;
      if r.contains(record.value.ts) {
        var entry := Entry(format, line, record.value);
        AddedTwice(sink, count, entry, 1, Exported(r, format, until, LinesFrom(log, pos), number, lastSeq));
        sink := sink + entry;
        count := count + 1;
      }
    }
    assert LinesFrom(log, |log|) == [] by { NoLines(log); }
    assert sink + "" == sink;
    return Success(Output(sink, count));
  }

  lemma LineByLine(log: string, pos: nat)
    requires pos < |log|
    ensures var end := LineEnd(log, pos);
      && LinesFrom(log, pos) != [] && LinesFrom(log, pos)[0] == log[pos..end]
      && LinesFrom(log, pos)[1..] == LinesFrom(log, After(log, end))
      && pos < After(log, end)
  {
  }

  lemma NoLines(log: string)
    ensures LinesFrom(log, |log|) == []
  {
  }

  lemma AddedTwice(body: string, count: nat, entry: string, n: nat, result: Result<Output, Error>)
    ensures Added(body, count, Added(entry, n, result)) == Added(body + entry, count + n, result)
  {
    if result.Success? {
      assert body + (entry + result.value.content) == body + entry + result.value.content;
    }
  }

  // ---- what an export holds ------------------------------------------------------------------

  /** Consecutive numbers, the first one `first`. */
  ghost predicate Consecutive(r: Reading, lines: seq<string>, first: nat) {
    forall i | 0 <= i < |lines| :: r.parse(lines[i]).Some? && r.parse(lines[i]).value.number == first + i
  }

  predicate InRange(r: Reading, line: string) { r.parse(line).Some? && r.contains(r.parse(line).value.ts) }

  /** The lines in the range, and nothing else. */
  function Chosen(r: Reading, lines: seq<string>): seq<string> {
    if lines == [] then [] else (if InRange(r, lines[0]) then [lines[0]] else []) + Chosen(r, lines[1..])
  }

  /** The records of the chosen lines, one entry each. */
  function Entries(r: Reading, format: Format, lines: seq<string>): string {
    if lines == [] then ""
    else (if r.parse(lines[0]).Some? then Entry(format, lines[0], r.parse(lines[0]).value) else "")
         + Entries(r, format, lines[1..])
  }

  lemma {:induction false} LinesOfLog(lines: seq<string>, before: string)
    requires forall i | 0 <= i < |lines| :: '\n' !in lines[i]
    ensures LinesFrom(before + LogOf(lines), |before|) == lines
    decreases |lines|
  {
    hide LinesFrom, LineEnd;
    var log := before + LogOf(lines);
    if lines == [] {
      assert log == before;
      NoLines(log);
    } else {
      var line, rest := lines[0], lines[1..];
      var next := before + line + "\n";
      assert log == before + line + ("\n" + LogOf(rest)) == next + LogOf(rest);
      EndOfLine(before, line, "\n" + LogOf(rest));
      LineByLine(log, |before|);
      LinesOfLog(rest, next);
      assert log[|before|..|before| + |line|] == line;
      assert LinesFrom(log, |before|) == [line] + rest == lines;
    }
  }

  lemma {:induction false} EndOfLine(before: string, line: string, tail: string)
    requires '\n' !in line && tail != "" && tail[0] == '\n'
    ensures LineEnd(before + line + tail, |before|) == |before| + |line|
    decreases |line|
  {
    if line != "" {
      assert (before + line + tail)[|before|] == line[0];
      assert before + [line[0]] + line[1..] + tail == before + line + tail;
      EndOfLine(before + [line[0]], line[1..], tail);
    }
  }

  /** How many of `n` consecutive records, the first one numbered `first`, are read when
      `lastSeq` was read before: the end is looked at only between two lines. */
  function LinesRead(n: nat, until: Option<nat>, first: nat, lastSeq: nat): (k: nat)
    ensures k <= n
  {
    if until.None? then n
    else if lastSeq >= until.value || n == 0 then 0
    else if until.value <= first then 1
    else if until.value - first + 1 <= n then until.value - first + 1
    else n
  }

  predicate IsUpTo(until: Option<nat>, first: nat, i: nat) { until.None? || first + i <= until.value }

  /** How many of them have a number up to `until`. */
  function UpTo(n: nat, until: Option<nat>, first: nat): (k: nat)
    ensures k <= n
    ensures forall i | 0 <= i < n :: i < k <==> IsUpTo(until, first, i)
  {
    if until.None? then n
    else if until.value < first then 0
    else if until.value - first + 1 <= n then until.value - first + 1
    else n
  }

  /** Whether reading ends among the lines, so that what stands behind does not matter. */
  predicate EndsWithin(n: nat, until: Option<nat>, first: nat, lastSeq: nat) {
    until.Some? && (lastSeq >= until.value || (n > 0 && until.value <= first + n - 1))
  }

  function Shown(r: Reading, format: Format, lines: seq<string>): Result<Output, Error> {
    Success(Output(Entries(r, format, Chosen(r, lines)), |Chosen(r, lines)|))
  }

  /** Of consecutive records exactly that many are read; what stands behind, records or
      not, changes nothing if reading ends before. */
  lemma {:induction false} ReadsItsLines(r: Reading, format: Format, until: Option<nat>, lines: seq<string>,
                                         beyond: seq<string>, first: nat, number: nat, lastSeq: nat)
    requires Consecutive(r, lines, first)
    requires beyond == [] || EndsWithin(|lines|, until, first, lastSeq)
    ensures Exported(r, format, until, lines + beyond, number, lastSeq)
         == Shown(r, format, lines[..LinesRead(|lines|, until, first, lastSeq)])
    decreases |lines|
  {
    hide Shown, Added, Entry, LinesRead, EndsWithin;
    var k := LinesRead(|lines|, until, first, lastSeq);
    var all := lines + beyond;
    ReadOneMore(|lines|, until, first, lastSeq);
    ShownNone(r, format);
    if Reached(until, lastSeq) || lines == [] {
      assert lines[..k] == [] && (lines == [] && beyond == [] ==> all == []);
    } else {
      var rest := lines[1..];
      assert all[0] == lines[0] && all[1..] == rest + beyond;
      assert forall i | 0 <= i < |rest| :: rest[i] == lines[i + 1];
      ReadsItsLines(r, format, until, rest, beyond, first + 1, number + 1, first);
      var more := rest[..k - 1];
      assert lines[..k] == [lines[0]] + more;
      ShownCons(r, format, lines[0], more);
    }
  }

  /** Reading ends, or goes on behind one line. */
  lemma ReadOneMore(n: nat, until: Option<nat>, first: nat, lastSeq: nat)
    ensures LinesRead(n, until, first, lastSeq) ==
      if n == 0 || Reached(until, lastSeq) then 0 else 1 + LinesRead(n - 1, until, first + 1, first)
    ensures EndsWithin(n, until, first, lastSeq) <==>
      Reached(until, lastSeq) || (n > 0 && EndsWithin(n - 1, until, first + 1, first))
  {
  }

  lemma ShownNone(r: Reading, format: Format)
    ensures Shown(r, format, []) == Success(Output("", 0))
  {
  }

  lemma ShownCons(r: Reading, format: Format, line: string, more: seq<string>)
    requires r.parse(line).Some?
    ensures Shown(r, format, more).Success?
    ensures var record := r.parse(line).value;
      Shown(r, format, [line] + more) ==
        if r.contains(record.ts) then Added(Entry(format, line, record), 1, Shown(r, format, more))
        else Shown(r, format, more)
  {
    assert ([line] + more)[1..] == more;
    var rest := Chosen(r, more);
    assert ([line] + rest)[1..] == rest && [] + rest == rest;
  }

  /** An export of any log of consecutive records, with any end: the records in the range
      among those that are read. */
  lemma ExportOfALog(r: Reading, format: Format, until: Option<nat>, lines: seq<string>, beyond: seq<string>,
                     first: nat)
    requires Consecutive(r, lines, first)
    requires beyond == [] || EndsWithin(|lines|, until, first, 0)
    requires forall i | 0 <= i < |lines + beyond| :: '\n' !in (lines + beyond)[i]
    ensures Exported(r, format, until, LinesFrom(LogOf(lines + beyond), 0), 0, 0)
         == Shown(r, format, lines[..LinesRead(|lines|, until, first, 0)])
  {
    LinesOfLog(lines + beyond, "");
    assert "" + LogOf(lines + beyond) == LogOf(lines + beyond);
    ReadsItsLines(r, format, until, lines, beyond, first, 0, 0);
  }

  /** The promise is the records up to `until` whose time is in the range. It is kept by
      every log and every end, but by one kind: a log that begins behind an end other than
      zero, with a first record in the range. */
  lemma ExportIsTheRange(r: Reading, format: Format, until: Option<nat>, lines: seq<string>, beyond: seq<string>,
                         first: nat)
    requires Consecutive(r, lines, first) && 0 < first
    requires beyond == [] || EndsWithin(|lines|, until, first, 0)
    requires forall i | 0 <= i < |lines + beyond| :: '\n' !in (lines + beyond)[i]
    ensures Exported(r, format, until, LinesFrom(LogOf(lines + beyond), 0), 0, 0)
         == Shown(r, format, lines[..UpTo(|lines|, until, first)])
       <==> until.None? || first <= until.value || until.value == 0 || lines == [] || !InRange(r, lines[0])
  {
    ExportOfALog(r, format, until, lines, beyond, first);
    if lines != [] && until.Some? && 0 < until.value < first {
      assert lines[..1] == [lines[0]] + [] && lines[..0] == [];
      ShownCons(r, format, lines[0], []);
    }
  }

  /** An export of a range that holds every record is, as JSONL, the log byte for byte up
      to `until`. */
  lemma {:induction false} JsonlIsTheLog(r: Reading, lines: seq<string>)
    requires forall i | 0 <= i < |lines| :: InRange(r, lines[i])
    ensures Chosen(r, lines) == lines && Entries(r, Jsonl, Chosen(r, lines)) == LogOf(lines)
  {
    if lines != [] {
      JsonlIsTheLog(r, lines[1..]);
      assert [lines[0]] + lines[1..] == lines;
    }
  }
}
