/** One line of the exit log, written into a buffer of fixed size without the C
    library's help, and appended to a file that rotates. */
module ExitLog {
  import opened Wrappers
  import opened Civil
  import opened Decimal

  /** `static_cast<unsigned long long>` wraps. */
  function ToU64(x: int): (n: nat)
    ensures n < 0x1_0000_0000_0000_0000
  {
    x % 0x1_0000_0000_0000_0000
  }

  // ---- the line, without the buffer ----------------------------------------------------

  predicate IsControl(c: char) { c < ' ' || c as int == 0x7F }

  /** Every control character becomes a space, so that no entry makes two lines. */
  function Clean(text: string): (s: string)
    ensures |s| == |text| && '\n' !in s
    ensures forall i | 0 <= i < |s| :: s[i] == if IsControl(text[i]) then ' ' else text[i]
  {
    seq(|text|, i requires 0 <= i < |text| => if IsControl(text[i]) then ' ' else text[i])
  }

  /** A call of `clock_gettime`; a time before the epoch counts as the epoch. */
  datatype Instant = Instant(seconds: int, nanoseconds: int)

  function Seconds(t: Instant): nat { if t.seconds < 0 then 0 else t.seconds }

  function DateOf(t: Instant): (d: Date)
    ensures IsDate(d) && d.year >= 1970
  {
    IsCalendarDate(Seconds(t) / 86400);
    NotBeforeTheEpoch(Seconds(t) / 86400);
    CivilFromDays(Seconds(t) / 86400)
  }

  lemma {:induction false} NotBeforeTheEpoch(days: nat)
    ensures CivilFromDays(days).year >= 1970
  {
    hide CivilFromDays;
    if days == 0 {
      Epoch();
    } else {
      NotBeforeTheEpoch(days - 1);
      NextDayIsTomorrow(days - 1);
    }
  }

  function InDay(t: Instant): nat { Seconds(t) % 86400 }

  function Millis(t: Instant): nat { ToU64(TruncDiv(t.nanoseconds, 1_000_000)) }

  /** The time stamp, with the space behind it. */
  function Stamp(t: Instant): string {
    var d := DateOf(t);
    Padded(d.year, 4) + "-" + Padded(d.month, 2) + "-" + Padded(d.day, 2)
    + "T" + Padded(InDay(t) / 3600, 2) + ":" + Padded(InDay(t) % 3600 / 60, 2) + ":" + Padded(InDay(t) % 60, 2)
    + "." + Padded(Millis(t), 3) + "Z "
  }

  function Line(t: Instant, pid: int, kind: Option<string>, key: Option<string>, value: Option<string>): string {
    var start := Stamp(t) + Clean(if kind.None? then "note" else kind.value) + " pid=" + Padded(ToU64(pid), 1);
    if key.None? || value.None? then start
    else start + " " + Clean(key.value) + "=" + Clean(value.value)
  }

  // ---- the buffer ----------------------------------------------------------------------

  /** What of `s` fits. */
  function Clip(s: string, room: nat): string { if |s| <= room then s else s[..room] }

  lemma ClipMore(s: string, t: string, room: nat)
    ensures Clip(Clip(s, room) + t, room) == Clip(s + t, room)
  {
  }

  /** The buffer holds a string: as much of `line` as leaves room for the NUL. */
  ghost predicate Holds(out: array<char>, at: nat, line: string)
    reads out
  {
    at < out.Length && out[at] == '\0' && out[..at] == Clip(line, out.Length - 1)
  }

  /** Appends a text; `line` is what the buffer would hold if it were long enough. */
  method AppendText(out: array<char>, at: nat, text: string, ghost line: string) returns (end: nat)
    requires Holds(out, at, line)
    modifies out
    ensures Holds(out, end, line + Clean(text))
  {
    end := at;
    var i := 0;
    ghost var had := out[..at];
    while i < |text| && end + 1 < out.Length
      invariant i <= |text| && end == at + i < out.Length
      invariant out[..end] == had + Clean(text)[..i]
    {
      var c := text[i];
      if IsControl(c) {
        c := ' ';
      }
      out[end] := c;
      assert Clean(text)[..i + 1] == Clean(text)[..i] + [c];
      assert out[..end + 1] == out[..end] + [c];
      i := i + 1;
      end := end + 1;
    }
    out[end] := '\0';
    ClipMore(line, Clean(text), out.Length - 1);
    Clipped(had, Clean(text), out.Length - 1, i);
  }

  function Reversed(s: string): (r: string)
    ensures |r| == |s|
    ensures forall i | 0 <= i < |s| :: r[i] == s[|s| - 1 - i]
  {
    seq(|s|, i requires 0 <= i < |s| => s[|s| - 1 - i])
  }

  lemma ReversedAt(s: string, i: nat)
    requires i < |s|
    ensures Reversed(s)[|s| - 1 - i] == s[i]
  {
  }

  /** The digits of a number, last one first. The buffer of 24 bytes is never full: no
      64-bit number reaches it. */
  method MakeDigits(digits: array<char>, number: nat) returns (n: nat)
    requires digits.Length == 24 && number < 0x1_0000_0000_0000_0000
    modifies digits
    ensures n <= 20 && Reversed(digits[..n]) == Digits(number)
  {
    n := 0;
    var value: nat := number;
    var more := true;
    NothingMade(number);
    hide Made;
    assert digits[..0] == "";
    while more
      invariant n <= 20 && Made(number, value, digits[..n], more)
      invariant !more ==> n > 0
      decreases if n == 0 then 1 else 0, if more then value + 1 else 0
    {
      ghost var was := digits[..n];
      OneDigit(number, value, was);
      digits[n] := DigitChar(value % 10);
      n := n + 1;
      assert digits[..n] == was + [DigitChar(value % 10)];
      value := value / 10;
      more := value != 0 && n < digits.Length;
    }
    AllMade(number, value, digits[..n]);
  }

  /** The digits in `tail`, last one first, are those of the number that `value` lacks. */
  ghost predicate Made(number: nat, value: nat, tail: string, more: bool) {
    && |tail| <= 20 && value < Pow10(20 - |tail|)
    && (more <==> tail == "" || value != 0)
    && Digits(number) == (if more then Digits(value) else "") + Reversed(tail)
  }

  lemma NothingMade(number: nat)
    requires number < 0x1_0000_0000_0000_0000
    ensures Made(number, number, "", true)
  {
    TwentyDigits();
    assert Reversed("") == "" && Digits(number) + "" == Digits(number);
  }

  lemma AllMade(number: nat, value: nat, tail: string)
    requires Made(number, value, tail, false)
    ensures Reversed(tail) == Digits(number)
  {
    assert "" + Reversed(tail) == Reversed(tail);
  }

  /** Taking the last digit off a number that has one. */
  lemma OneDigit(number: nat, value: nat, tail: string)
    requires Made(number, value, tail, true)
    ensures |tail| < 20 && (tail == "" || value != 0)
    ensures Made(number, value / 10, tail + [DigitChar(value % 10)], value / 10 != 0)
  {
    var room := 20 - |tail|;
    assert room > 0 ==> Pow10(room) == 10 * Pow10(room - 1);
    assert Reversed(tail + [DigitChar(value % 10)]) == [DigitChar(value % 10)] + Reversed(tail);
  }

  /** The digits that the buffer has room for. */
  function Room(width: nat): nat { if width < 24 then width else 24 }

  /** Zeros behind them, up to `width` digits or the end of the buffer. */
  method MakeZeros(digits: array<char>, made: nat, width: nat) returns (n: nat)
    requires digits.Length == 24 && made <= 20
    modifies digits
    ensures n == (if made < Room(width) then Room(width) else made) <= 24
    ensures digits[..n] == old(digits[..made]) + Zeros(n - made)
  {
    n := made;
    while n < width && n < digits.Length
      invariant made <= n <= 24 && (n <= width || n == made)
      invariant digits[..n] == old(digits[..made]) + Zeros(n - made)
    {
      ghost var was := digits[..n];
      digits[n] := '0';
      assert Zeros(n + 1 - made) == Zeros(n - made) + ['0'];
      assert digits[..n + 1] == was + ['0'];
      n := n + 1;
    }
  }

  method MakePadded(digits: array<char>, number: nat, width: nat) returns (n: nat)
    requires digits.Length == 24 && number < 0x1_0000_0000_0000_0000
    modifies digits
    ensures n <= 24 && Reversed(digits[..n]) == Padded(number, Room(width))
  {
    hide Digits, Reversed, Padded, Zeros;
    n := MakeDigits(digits, number);
    ghost var made := digits[..n];
    n := MakeZeros(digits, n, width);
    PaddedBackwards(number, Room(width), made, n - |made|);
  }

  lemma PaddedBackwards(number: nat, width: nat, made: string, zeros: nat)
    requires Reversed(made) == Digits(number)
    requires zeros == if |made| < width then width - |made| else 0
    ensures Reversed(made + Zeros(zeros)) == Padded(number, width)
  {
    hide Digits;
    var s, padded := made + Zeros(zeros), Padded(number, width);
    assert |padded| == |s|;
    forall i | 0 <= i < |s|
      ensures Reversed(s)[i] == padded[i]
    {
      if i < zeros {
        assert s[|s| - 1 - i] == '0' == padded[i];
      } else {
        assert s[|s| - 1 - i] == made[|s| - 1 - i] == Reversed(made)[i - zeros];
        assert padded[i] == Digits(number)[i - zeros];
      }
    }
  }

  /** Appends a number in decimal, at least `width` digits as far as the buffer of digits
      goes, most significant first. */
  method AppendUint(out: array<char>, at: nat, number: nat, width: nat, ghost line: string) returns (end: nat)
    requires Holds(out, at, line)
    requires number < 0x1_0000_0000_0000_0000
    modifies out
    ensures Holds(out, end, line + Padded(number, Room(width)))
  {
    hide Padded, Clip;
    var digits := new char[24](_ => '0');
    var n := MakePadded(digits, number, width);
    ghost var all, padded, had, total := digits[..n], Padded(number, Room(width)), out[..at], n;
    end := at;
    while n > 0 && end + 1 < out.Length
      invariant n <= total && end == at + (total - n) < out.Length
      invariant digits[..total] == all
      invariant out[..end] == had + padded[..total - n]
    {
      n := n - 1;
      assert digits[n] == digits[..total][n];
      ReversedAt(all, n);
      out[end] := digits[n];
      assert padded[..total - n] == padded[..total - 1 - n] + [padded[total - 1 - n]];
      assert out[..end + 1] == out[..end] + [digits[n]];
      end := end + 1;
    }
    out[end] := '\0';
    ClipMore(line, padded, out.Length - 1);
    Clipped(had, padded, out.Length - 1, total - n);
  }

  lemma Clipped(had: string, text: string, room: nat, taken: nat)
    requires taken <= |text| && |had| + taken <= room
    requires taken == |text| || |had| + taken == room
    ensures Clip(had + text, room) == had + text[..taken]
  {
  }

  /** Years grow no faster than days. */
  lemma {:induction false} YearFits(days: nat)
    ensures CivilFromDays(days).year <= 1970 + days
  {
  }

  lemma DateFits(t: Instant)
    requires t.seconds < 0x8000_0000_0000_0000
    ensures ToU64(DateOf(t).year) == DateOf(t).year
  {
    hide CivilFromDays;
    YearFits(Seconds(t) / 86400);
  }

  lemma CleanSeparators()
    ensures Clean("-") == "-" && Clean("T") == "T" && Clean(":") == ":" && Clean(".") == "."
    ensures Clean("Z ") == "Z " && Clean(" pid=") == " pid=" && Clean(" ") == " " && Clean("=") == "="
  {
  }

  lemma EmptyHolds(out: array<char>)
    requires out.Length > 0 && out[0] == '\0'
    ensures Holds(out, 0, "")
  {
  }

  lemma HoldsSame(out: array<char>, at: nat, line: string, same: string)
    requires Holds(out, at, line) && line == same
    ensures Holds(out, at, same)
  {
  }

  method AppendStamp(out: array<char>, t: Instant) returns (at: nat)
    requires out.Length > 0 && t.seconds < 0x8000_0000_0000_0000
    modifies out
    ensures Holds(out, at, Stamp(t))
  {
    out[0] := '\0';
    EmptyHolds(out);
    CleanSeparators();
    DateFits(t);
    hide Holds, Padded, Clean, DateOf, Millis;
    var days, rest := Seconds(t) / 86400, Seconds(t) % 86400;
    var date := DateOf(t);
    ghost var line := "" + Padded(date.year, 4);
    at := AppendUint(out, 0, ToU64(date.year), 4, "");
    HoldsSame(out, at, line, Padded(date.year, 4));
    line := Padded(date.year, 4);
    at := AppendText(out, at, "-", line);
    line := line + "-";
    at := AppendUint(out, at, date.month, 2, line);
    line := line + Padded(date.month, 2);
    at := AppendText(out, at, "-", line);
    line := line + "-";
    at := AppendUint(out, at, date.day, 2, line);
    line := line + Padded(date.day, 2);
    at := AppendText(out, at, "T", line);
    line := line + "T";
    at := AppendUint(out, at, rest / 3600, 2, line);
    line := line + Padded(rest / 3600, 2);
    at := AppendText(out, at, ":", line);
    line := line + ":";
    at := AppendUint(out, at, rest % 3600 / 60, 2, line);
    line := line + Padded(rest % 3600 / 60, 2);
    at := AppendText(out, at, ":", line);
    line := line + ":";
    at := AppendUint(out, at, rest % 60, 2, line);
    line := line + Padded(rest % 60, 2);
    at := AppendText(out, at, ".", line);
    line := line + ".";
    at := AppendUint(out, at, Millis(t), 3, line);
    line := line + Padded(Millis(t), 3);
    at := AppendText(out, at, "Z ", line);
  }

  /** `humanitl_exit_log_format`: as much of the line as the buffer takes. */
  method Format(out: array?<char>, t: Instant, pid: int, kind: Option<string>, key: Option<string>,
                value: Option<string>) returns (length: nat)
    requires t.seconds < 0x8000_0000_0000_0000
    modifies if out == null then {} else {out}
    ensures out == null || out.Length == 0 ==> length == 0
    ensures out != null && out.Length > 0 ==> Holds(out, length, Line(t, pid, kind, key, value))
  {
    if out == null || out.Length == 0 {
      return 0;
    }
    CleanSeparators();
    hide Holds, Padded, Clean, Stamp;
    length := AppendStamp(out, t);
    ghost var line := Stamp(t);
    var what := if kind.None? then "note" else kind.value;
    length := AppendText(out, length, what, line);
    line := line + Clean(what);
    length := AppendText(out, length, " pid=", line);
    line := line + " pid=";
    length := AppendUint(out, length, ToU64(pid), 1, line);
    line := line + Padded(ToU64(pid), 1);
    if key.Some? && value.Some? {
      length := AppendText(out, length, " ", line);
      length := AppendText(out, length, key.value, line + " ");
      length := AppendText(out, length, "=", line + " " + Clean(key.value));
      length := AppendText(out, length, value.value, line + " " + Clean(key.value) + "=");
    }
  }

  /** The line break goes into the same buffer, so that one `write` takes both; the
      emitted bytes are the line, cut if need be, and its line break. */
  method EmitLine(line: array<char>, length: nat, capacity: nat, ghost whole: string) returns (emitted: string)
    requires capacity == line.Length && Holds(line, length, whole)
    modifies line
    ensures emitted == if capacity < 2 then "" else Clip(whole, capacity - 2) + "\n"
  {
    if capacity < 2 {
      return "";
    }
    var end := length;
    if end + 1 >= capacity {
      end := capacity - 2;
    }
    assert line[..end] == Clip(whole, capacity - 2) by {
      assert line[..end] == line[..length][..end];
    }
    line[end] := '\n';
    emitted := line[..end + 1];
    assert line[..end + 1] == line[..end] + ['\n'];
  }

  lemma DigitsAreDigits(value: nat, width: nat)
    ensures forall c | c in Padded(value, width) :: '0' <= c <= '9'
  {
    OnlyDigits(value);
  }

  lemma {:induction false} OnlyDigits(value: nat)
    ensures forall c | c in Digits(value) :: '0' <= c <= '9'
  {
    if value >= 10 {
      OnlyDigits(value / 10);
    }
  }

  ghost predicate OneLine(s: string) { '\n' !in s }

  lemma OneLineConcat(a: string, b: string)
    requires OneLine(a) && OneLine(b)
    ensures OneLine(a + b)
  {
  }

  lemma NumbersAreOneLine(value: nat, width: nat)
    ensures OneLine(Padded(value, width))
  {
    DigitsAreDigits(value, width);
  }

  /** Another number and what follows it. */
  lemma OneMore(line: string, value: nat, width: nat, separator: string)
    requires OneLine(line) && OneLine(separator)
    ensures OneLine(line + Padded(value, width) + separator)
  {
    NumbersAreOneLine(value, width);
    OneLineConcat(line, Padded(value, width));
    OneLineConcat(line + Padded(value, width), separator);
  }

  lemma StampIsOneLine(t: Instant)
    ensures OneLine(Stamp(t))
  {
    assert OneLine("") && OneLine("-") && OneLine("T") && OneLine(":") && OneLine(".") && OneLine("Z ");
    hide OneLine, Padded, DateOf, Millis;
    var d := DateOf(t);
    OneMore("", d.year, 4, "-");
    var line := "" + Padded(d.year, 4) + "-";
    OneMore(line, d.month, 2, "-");
    line := line + Padded(d.month, 2) + "-";
    OneMore(line, d.day, 2, "T");
    line := line + Padded(d.day, 2) + "T";
    OneMore(line, InDay(t) / 3600, 2, ":");
    line := line + Padded(InDay(t) / 3600, 2) + ":";
    OneMore(line, InDay(t) % 3600 / 60, 2, ":");
    line := line + Padded(InDay(t) % 3600 / 60, 2) + ":";
    OneMore(line, InDay(t) % 60, 2, ".");
    line := line + Padded(InDay(t) % 60, 2) + ".";
    OneMore(line, Millis(t), 3, "Z ");
    assert "" + Padded(d.year, 4) == Padded(d.year, 4);
  }

  /** Whatever kind, key and value are: an entry is one line, ended by its line break
      and by no other. */
  lemma AnEntryIsOneLine(t: Instant, pid: int, kind: Option<string>, key: Option<string>, value: Option<string>,
                         room: nat)
    ensures '\n' !in Clip(Line(t, pid, kind, key, value), room)
  {
    hide Padded, Stamp;
    StampIsOneLine(t);
    NumbersAreOneLine(ToU64(pid), 1);
  }
}
