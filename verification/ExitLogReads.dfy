/** A line of the exit log read back: what stands at which place, and that it is the time,
    the process and the words the caller gave. */
module ExitLogReads {
  import opened Wrappers
  import opened Civil
  import opened Decimal
  import opened ExitLog
  import opened ExitLogOrder

  /** The digits from `at` to `end` write the number. */
  ghost predicate NumberAt(s: string, at: nat, end: nat, number: int) {
    at <= end <= |s| && AreDigits(s[at..end]) && NumberOf(s[at..end]) == number
  }

  /** A stamp as in section 5.6 of RFC 3339, of this date and this time of day. */
  ghost predicate IsStamp(s: string, d: Date, hour: nat, minute: nat, second: nat, millis: nat) {
    && |s| == 25
    && NumberAt(s, 0, 4, d.year) && s[4] == '-' && NumberAt(s, 5, 7, d.month) && s[7] == '-'
    && NumberAt(s, 8, 10, d.day) && s[10] == 'T'
    && NumberAt(s, 11, 13, hour) && s[13] == ':' && NumberAt(s, 14, 16, minute) && s[16] == ':'
    && NumberAt(s, 17, 19, second) && s[19] == '.' && NumberAt(s, 20, 23, millis) && s[23..] == "Z "
  }

  lemma PaddedIsNumber(value: nat, width: nat)
    requires 0 < width && value < Pow10(width)
    ensures |Padded(value, width)| == width
    ensures AreDigits(Padded(value, width)) && NumberOf(Padded(value, width)) == value
  {
    hide Digits, NumberOf, AreDigits, Last, Pow10, Zeros;
    PaddedIsLast(value, width);
    DigitsWriteTheNumber(value);
    if |Digits(value)| < width {
      PaddedWritesTheNumber(value, width - |Digits(value)|);
    }
  }

  /** Where the seven numbers of a stamp stand. */
  lemma SevenPlaces(y: string, mo: string, d: string, h: string, m: string, s: string, ms: string)
    requires |y| == 4 && |mo| == |d| == |h| == |m| == |s| == 2 && |ms| == 3
    ensures var t := y + "-" + mo + "-" + d + "T" + h + ":" + m + ":" + s + "." + ms + "Z ";
      && |t| == 25
      && t[0..4] == y && t[4] == '-' && t[5..7] == mo && t[7] == '-' && t[8..10] == d && t[10] == 'T'
      && t[11..13] == h && t[13] == ':' && t[14..16] == m && t[16] == ':' && t[17..19] == s && t[19] == '.'
      && t[20..23] == ms && t[23..] == "Z "
  {
  }

  /** The stamp is the clock's time to the millisecond: on that day of the calendar, so many
      seconds after its start. */
  lemma StampReads(t: Instant) returns (d: Date, hour: nat, minute: nat, second: nat, millis: nat)
    requires InRange(t)
    ensures IsStamp(Stamp(t), d, hour, minute, second, millis)
    ensures IsDate(d) && hour < 24 && minute < 60 && second < 60
    ensures 86400 * DaysFromCivil(d) + 3600 * hour + 60 * minute + second == if t.seconds < 0 then 0 else t.seconds
    ensures 1_000_000 * millis <= t.nanoseconds < 1_000_000 * (millis + 1)
  {
    d, hour, minute, second, millis := DateOf(t), InDay(t) / 3600, InDay(t) % 3600 / 60, InDay(t) % 60, Millis(t);
    FieldsFit(t);
    DayParts(t);
    RoundTrip(Seconds(t) / 86400);
    StampIs(t);
  }

  lemma StampIs(t: Instant)
    requires InRange(t)
    ensures IsStamp(Stamp(t), DateOf(t), InDay(t) / 3600, InDay(t) % 3600 / 60, InDay(t) % 60, Millis(t))
  {
    FieldsFit(t);
    hide Padded, DateOf, InDay, Millis, NumberAt, Pow10, InRange;
    var d, h, m, s, ms := DateOf(t), InDay(t) / 3600, InDay(t) % 3600 / 60, InDay(t) % 60, Millis(t);
    PaddedIsNumber(d.year, 4);
    PaddedIsNumber(d.month, 2);
    PaddedIsNumber(d.day, 2);
    PaddedIsNumber(h, 2);
    PaddedIsNumber(m, 2);
    PaddedIsNumber(s, 2);
    PaddedIsNumber(ms, 3);
    SevenPlaces(Padded(d.year, 4), Padded(d.month, 2), Padded(d.day, 2), Padded(h, 2), Padded(m, 2), Padded(s, 2),
                Padded(ms, 3));
    PlacesAreNumbers(Stamp(t), d, h, m, s, ms);
  }

  lemma PlacesAreNumbers(t: string, d: Date, hour: nat, minute: nat, second: nat, millis: nat)
    requires |t| == 25 && d.year >= 0
    requires AreDigits(t[0..4]) && NumberOf(t[0..4]) == d.year && AreDigits(t[5..7]) && NumberOf(t[5..7]) == d.month
    requires AreDigits(t[8..10]) && NumberOf(t[8..10]) == d.day
    requires AreDigits(t[11..13]) && NumberOf(t[11..13]) == hour
    requires AreDigits(t[14..16]) && NumberOf(t[14..16]) == minute
    requires AreDigits(t[17..19]) && NumberOf(t[17..19]) == second
    requires AreDigits(t[20..23]) && NumberOf(t[20..23]) == millis
    requires t[4] == '-' && t[7] == '-' && t[10] == 'T' && t[13] == ':' && t[16] == ':' && t[19] == '.'
    requires t[23..] == "Z "
    ensures IsStamp(t, d, hour, minute, second, millis)
  {
  }

  // ---- the words -------------------------------------------------------------------------------

  ghost predicate NoControl(text: string) { forall i | 0 <= i < |text| :: text[i] >= ' ' && text[i] as int != 0x7F }

  lemma CleanKeeps(text: string)
    requires NoControl(text)
    ensures Clean(text) == text
  {
  }

  /** Behind the stamp stand the kind, or `note` without one, the process and, if both are
      given, the key and its value. */
  lemma LineReads(t: Instant, pid: int, kind: Option<string>, key: Option<string>, value: Option<string>)
    returns (digits: string)
    requires 0 <= pid < 0x1_0000_0000_0000_0000
    requires kind.Some? ==> NoControl(kind.value)
    requires key.Some? ==> NoControl(key.value)
    requires value.Some? ==> NoControl(value.value)
    ensures AreDigits(digits) && NumberOf(digits) == pid && (pid > 0 ==> digits != "" && digits[0] != '0')
    ensures kind.Some? && key.Some? && value.Some? ==>
      Line(t, pid, kind, key, value) == Stamp(t) + kind.value + " pid=" + digits + " " + key.value + "=" + value.value
    ensures kind.Some? && (key.None? || value.None?) ==>
      Line(t, pid, kind, key, value) == Stamp(t) + kind.value + " pid=" + digits
    ensures kind.None? ==> Line(t, pid, kind, key, value) == Line(t, pid, Some("note"), key, value)
  {
    hide Line, Stamp, Clean, NoControl, Padded, ToU64, NumberOf;
    digits := Padded(ToU64(pid), 1);
    AsItIs(pid);
    CleanOption(Some("note"));
    CleanOption(kind);
    CleanOption(key);
    CleanOption(value);
    LineOf(t, pid, kind, key, value);
  }

  lemma AsItIs(pid: int)
    requires 0 <= pid < 0x1_0000_0000_0000_0000
    ensures var digits := Padded(ToU64(pid), 1);
      AreDigits(digits) && NumberOf(digits) == pid && (pid > 0 ==> digits != "" && digits[0] != '0')
    ensures NoControl("note")
  {
    DigitsWriteTheNumber(pid);
    OneWide(pid);
    hide NumberOf, Digits, AreDigits, Padded;
    assert ToU64(pid) == pid;
  }

  lemma OneWide(value: nat)
    ensures Padded(value, 1) == Digits(value)
  {
    hide Digits;
  }

  lemma LineOf(t: Instant, pid: int, kind: Option<string>, key: Option<string>, value: Option<string>)
    requires kind.Some? ==> Clean(kind.value) == kind.value
    requires key.Some? ==> Clean(key.value) == key.value
    requires value.Some? ==> Clean(value.value) == value.value
    requires Clean("note") == "note"
    ensures kind.Some? && key.Some? && value.Some? ==>
      Line(t, pid, kind, key, value)
      == Stamp(t) + kind.value + " pid=" + Padded(ToU64(pid), 1) + " " + key.value + "=" + value.value
    ensures kind.Some? && (key.None? || value.None?) ==>
      Line(t, pid, kind, key, value) == Stamp(t) + kind.value + " pid=" + Padded(ToU64(pid), 1)
    ensures kind.None? ==> Line(t, pid, kind, key, value) == Line(t, pid, Some("note"), key, value)
  {
    hide Stamp, Clean, Padded, ToU64;
    if kind.Some? && key.Some? && value.Some? {
      var start := Stamp(t) + kind.value + " pid=" + Padded(ToU64(pid), 1);
      Grouped(start, key.value, value.value);
    }
  }

  lemma CleanOption(text: Option<string>)
    requires text.Some? ==> NoControl(text.value)
    ensures text.Some? ==> Clean(text.value) == text.value
  {
    if text.Some? {
      CleanKeeps(text.value);
    }
  }

  lemma Grouped(start: string, key: string, value: string)
    ensures start + " " + key + "=" + value == start + (" " + key + "=" + value)
  {
  }
}
