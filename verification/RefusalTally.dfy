/** The tally of refused `socket(2)` calls: bounded memory, exact numbers. */
module RefusalTally {
  import opened Wrappers
  import opened Bpf
  import opened Seccomp

  const MAX_KEYS: nat := 16

  type U64 = x: int | 0 <= x < 0x1_0000_0000_0000_0000

  const U64_MAX: U64 := 0xffff_ffff_ffff_ffff

  /** Pairs of family and masked type, and the entry for every pair too many. */
  datatype Key = Pair(family: U32, sockType: U32) | Overflow

  datatype Reason = ByFamily | ByType | ByOverflow

  datatype Entry = Entry(reason: Reason, count: U64, firstMs: U64, lastMs: U64)

  /** One refused call as the listener hands it over. */
  datatype Attempt = Attempt(family: U32, rawType: U32, nowMs: U64)

  function PairOf(attempt: Attempt): Key {
    Pair(attempt.family, And(attempt.rawType, SOCK_TYPE_MASK))
  }

  function ReasonOf(allowed: seq<U32>, key: Key): Reason {
    match key
    case Overflow => ByOverflow
    case Pair(family, _) => if family in allowed then ByType else ByFamily
  }

  function Min(a: U64, b: U64): U64 { if a <= b then a else b }

  function Max(a: U64, b: U64): U64 { if a <= b then b else a }

  /** One more attempt at `now` for an entry; the count stops at its maximum. */
  function Bumped(entry: Entry, now: U64): Entry {
    Entry(entry.reason, if entry.count == U64_MAX then U64_MAX else entry.count + 1,
          Min(entry.firstMs, now), Max(entry.lastMs, now))
  }

  function EntryFor(allowed: seq<U32>, entries: map<Key, Entry>, key: Key, now: U64): Entry {
    if key in entries then entries[key] else Entry(ReasonOf(allowed, key), 0, now, now)
  }

  /** One attempt of `pair` counted into the entries. */
  function Counted(allowed: seq<U32>, entries: map<Key, Entry>, pair: Key, now: U64): map<Key, Entry> {
    var key := if pair !in entries && |entries| >= MAX_KEYS then Overflow else pair;
    entries[key := Bumped(EntryFor(allowed, entries, key, now), now)]
  }

  function Replay(allowed: seq<U32>, attempts: seq<Attempt>): map<Key, Entry> {
    if attempts == [] then map[]
    else
      var last := attempts[|attempts| - 1];
      Counted(allowed, Replay(allowed, attempts[..|attempts| - 1]), PairOf(last), last.nowMs)
  }

  /** The tally as the shim holds it, with the attempts it was told of as history. */
  class Tally {
    const allowed: seq<U32>
    var entries: map<Key, Entry>
    var changed: bool
    ghost var attempts: seq<Attempt>
    ghost var flushed: nat

    ghost predicate Valid()
      reads this
    {
      && entries == Replay(allowed, attempts)
      && flushed <= |attempts|
      && (changed <==> flushed < |attempts|)
    }

    constructor (allowed: seq<U32>)
      ensures Valid() && this.allowed == allowed && attempts == [] && flushed == 0
    {
      this.allowed := allowed;
      entries := map[];
      changed := false;
      attempts := [];
      flushed := 0;
    }

    /** Counts one refused `socket(family, rawType, ...)`. */
    method Record(family: U32, rawType: U32, nowMs: U64)
      requires Valid()
      modifies this
      ensures Valid()
      ensures attempts == old(attempts) + [Attempt(family, rawType, nowMs)]
      ensures flushed == old(flushed)
    {
      var sockType := And(rawType, SOCK_TYPE_MASK);
      var key := Pair(family, sockType);
      var reason := if family in allowed then ByType else ByFamily;
      if key !in entries && |entries| >= MAX_KEYS {
        key := Overflow;
        reason := ByOverflow;
      }
      var entry := Entry(reason, 0, nowMs, nowMs);
      if key in entries {
        entry := entries[key];
      }
      var count := if entry.count == U64_MAX then entry.count else entry.count + 1;
      entry := Entry(entry.reason, count, Min(entry.firstMs, nowMs), Max(entry.lastMs, nowMs));
      entries := entries[key := entry];
      changed := true;
      attempts := attempts + [Attempt(family, rawType, nowMs)];
      assert attempts[..|attempts| - 1] == old(attempts);
    }

    /** Every entry, when something changed since the last call. A silent answer
        therefore means that the last one given already held everything. */
    method TakeChanged() returns (r: Option<map<Key, Entry>>)
      requires Valid()
      modifies this
      ensures Valid() && attempts == old(attempts) && flushed == |attempts|
      ensures r == if old(flushed) < |attempts| then Some(Replay(allowed, attempts)) else None
    {
      if !changed {
        return None;
      }
      changed := false;
      flushed := |attempts|;
      return Some(entries);
    }
  }

  // ---- what the entries mean ---------------------------------------------------------

  /** The first pairs that came, at most [MAX_KEYS] of them. */
  function Admitted(attempts: seq<Attempt>): set<Key> {
    if attempts == [] then {}
    else
      var before := Admitted(attempts[..|attempts| - 1]);
      var pair := PairOf(attempts[|attempts| - 1]);
      if |before| < MAX_KEYS then before + {pair} else before
  }

  /** The attempts an entry speaks for: those of its pair, or those of no admitted pair. */
  predicate SpeaksFor(key: Key, admitted: set<Key>, attempt: Attempt) {
    if key == Overflow then PairOf(attempt) !in admitted else PairOf(attempt) == key
  }

  function Under(key: Key, admitted: set<Key>, attempts: seq<Attempt>): seq<Attempt> {
    if attempts == [] then []
    else
      var last := attempts[|attempts| - 1];
      Under(key, admitted, attempts[..|attempts| - 1]) + if SpeaksFor(key, admitted, last) then [last] else []
  }

  function Earliest(attempts: seq<Attempt>): U64
    requires attempts != []
  {
    var last := attempts[|attempts| - 1].nowMs;
    if |attempts| == 1 then last else Min(Earliest(attempts[..|attempts| - 1]), last)
  }

  function Latest(attempts: seq<Attempt>): U64
    requires attempts != []
  {
    var last := attempts[|attempts| - 1].nowMs;
    if |attempts| == 1 then last else Max(Latest(attempts[..|attempts| - 1]), last)
  }

  /** The entry that says everything about `attempts`. */
  function Summary(reason: Reason, attempts: seq<Attempt>): Entry
    requires attempts != []
  {
    Entry(reason, if |attempts| <= U64_MAX then |attempts| else U64_MAX, Earliest(attempts), Latest(attempts))
  }

  ghost predicate Exact(allowed: seq<U32>, entries: map<Key, Entry>, attempts: seq<Attempt>) {
    && ExactKeys(entries, attempts)
    && forall key | key in entries :: ExactEntry(allowed, key, entries[key], attempts)
  }

  /** There is an entry for each admitted pair, and one more if a pair was not. */
  ghost predicate ExactKeys(entries: map<Key, Entry>, attempts: seq<Attempt>) {
    forall key :: key in entries <==>
      key in Admitted(attempts) || (key == Overflow && Under(Overflow, Admitted(attempts), attempts) != [])
  }

  ghost predicate ExactEntry(allowed: seq<U32>, key: Key, entry: Entry, attempts: seq<Attempt>) {
    var under := Under(key, Admitted(attempts), attempts);
    under != [] && entry == Summary(ReasonOf(allowed, key), under)
  }

  lemma {:induction false} AdmittedFacts(attempts: seq<Attempt>)
    ensures |Admitted(attempts)| <= MAX_KEYS && Overflow !in Admitted(attempts)
    ensures |Admitted(attempts)| < MAX_KEYS ==> forall a | a in attempts :: PairOf(a) in Admitted(attempts)
    ensures forall key | key in Admitted(attempts) :: exists a :: a in attempts && PairOf(a) == key
  {
    if attempts != [] {
      var n := |attempts| - 1;
      var before := attempts[..n];
      AdmittedFacts(before);
      assert attempts == before + [attempts[n]];
      assert forall a | a in attempts :: a in before || a == attempts[n];
      forall key | key in Admitted(attempts)
        ensures exists a :: a in attempts && PairOf(a) == key
      {
        if key in Admitted(before) {
          var a :| a in before && PairOf(a) == key;
          assert a in attempts;
        } else {
          assert PairOf(attempts[n]) == key;
        }
      }
    }
  }

  /** Attempts that are all of admitted pairs leave nothing for the overflow entry. */
  lemma {:induction false} NothingOverflows(admitted: set<Key>, attempts: seq<Attempt>)
    requires forall a | a in attempts :: PairOf(a) in admitted
    ensures Under(Overflow, admitted, attempts) == []
  {
    if attempts != [] {
      assert attempts[|attempts| - 1] in attempts;
      NothingOverflows(admitted, attempts[..|attempts| - 1]);
    }
  }

  lemma {:induction false} UnderIgnoresAdmitted(key: Key, a: set<Key>, b: set<Key>, attempts: seq<Attempt>)
    requires key != Overflow
    ensures Under(key, a, attempts) == Under(key, b, attempts)
  {
    if attempts != [] {
      UnderIgnoresAdmitted(key, a, b, attempts[..|attempts| - 1]);
    }
  }

  lemma {:induction false} UnderOfNewPair(key: Key, admitted: set<Key>, attempts: seq<Attempt>)
    requires key != Overflow && forall a | a in attempts :: PairOf(a) != key
    ensures Under(key, admitted, attempts) == []
  {
    if attempts != [] {
      assert attempts[|attempts| - 1] in attempts;
      UnderOfNewPair(key, admitted, attempts[..|attempts| - 1]);
    }
  }

  lemma UnderStep(key: Key, admitted: set<Key>, before: seq<Attempt>, attempt: Attempt)
    ensures Under(key, admitted, before + [attempt])
         == Under(key, admitted, before) + if SpeaksFor(key, admitted, attempt) then [attempt] else []
  {
  }

  lemma AdmittedStep(before: seq<Attempt>, attempt: Attempt)
    ensures Admitted(before + [attempt])
         == if |Admitted(before)| < MAX_KEYS then Admitted(before) + {PairOf(attempt)} else Admitted(before)
  {
  }

  /** The entry that changes, and why it stays exact. */
  lemma ChangedEntry(allowed: seq<U32>, entries: map<Key, Entry>, key: Key, under: seq<Attempt>, attempt: Attempt)
    requires key in entries <==> under != []
    requires key in entries ==> entries[key] == Summary(ReasonOf(allowed, key), under)
    ensures Summary(ReasonOf(allowed, key), under + [attempt])
         == Bumped(EntryFor(allowed, entries, key, attempt.nowMs), attempt.nowMs)
  {
  }

  /** Which entry an attempt goes to, seen from the history. */
  function Goes(was: set<Key>, pair: Key): Key {
    if pair in was || |was| < MAX_KEYS then pair else Overflow
  }

  lemma CountedGoes(allowed: seq<U32>, entries: map<Key, Entry>, before: seq<Attempt>, pair: Key, now: U64)
    requires Exact(allowed, entries, before) && pair != Overflow
    ensures var key := Goes(Admitted(before), pair);
      Counted(allowed, entries, pair, now) == entries[key := Bumped(EntryFor(allowed, entries, key, now), now)]
  {
    AdmittedFacts(before);
    SizeOfEntries(allowed, entries, before);
    assert pair in entries <==> pair in Admitted(before);
  }

  /** How the attempts an entry speaks for change with one more. */
  lemma UnderAfter(before: seq<Attempt>, attempt: Attempt, k: Key)
    requires k == Overflow || k in Admitted(before + [attempt])
    ensures Under(k, Admitted(before + [attempt]), before + [attempt])
         == Under(k, Admitted(before), before)
            + (if k == Goes(Admitted(before), PairOf(attempt)) then [attempt] else [])
  {
    AdmittedFacts(before);
    AdmittedStep(before, attempt);
    var was, now := Admitted(before), Admitted(before + [attempt]);
    if k != Overflow {
      UnderIgnoresAdmitted(k, was, now, before);
    } else if |was| < MAX_KEYS {
      NothingOverflows(was, before);
      NothingOverflows(now, before);
    }
    UnderStep(k, now, before, attempt);
  }

  /** After one more attempt each entry is exact, the one it went to and the others. */
  lemma EntryAfter(allowed: seq<U32>, entries: map<Key, Entry>, before: seq<Attempt>, attempt: Attempt, k: Key)
    requires Exact(allowed, entries, before)
    requires k in Counted(allowed, entries, PairOf(attempt), attempt.nowMs)
    ensures ExactEntry(allowed, k, Counted(allowed, entries, PairOf(attempt), attempt.nowMs)[k], before + [attempt])
  {
    var key := Goes(Admitted(before), PairOf(attempt));
    var under := Under(k, Admitted(before), before);
    CountedGoes(allowed, entries, before, PairOf(attempt), attempt.nowMs);
    AdmittedStep(before, attempt);
    UnderAfter(before, attempt, k);
    if k == key {
      NewPairHasNone(allowed, entries, before, key);
      if key in entries {
        assert ExactEntry(allowed, key, entries[key], before);
      }
      ChangedEntry(allowed, entries, key, under, attempt);
    } else {
      assert ExactEntry(allowed, k, entries[k], before);
      assert under + [] == under;
    }
  }

  lemma KeysAfter(allowed: seq<U32>, entries: map<Key, Entry>, before: seq<Attempt>, attempt: Attempt)
    requires Exact(allowed, entries, before)
    ensures ExactKeys(Counted(allowed, entries, PairOf(attempt), attempt.nowMs), before + [attempt])
  {
    CountedGoes(allowed, entries, before, PairOf(attempt), attempt.nowMs);
    AdmittedFacts(before);
    AdmittedStep(before, attempt);
    UnderAfter(before, attempt, Overflow);
  }

  /** One more attempt keeps the entries exact. */
  lemma ExactStep(allowed: seq<U32>, entries: map<Key, Entry>, before: seq<Attempt>, attempt: Attempt)
    requires Exact(allowed, entries, before)
    ensures Exact(allowed, Counted(allowed, entries, PairOf(attempt), attempt.nowMs), before + [attempt])
  {
    KeysAfter(allowed, entries, before, attempt);
    var next := Counted(allowed, entries, PairOf(attempt), attempt.nowMs);
    forall k | k in next
      ensures ExactEntry(allowed, k, next[k], before + [attempt])
    {
      EntryAfter(allowed, entries, before, attempt, k);
    }
  }

  lemma NewPairHasNone(allowed: seq<U32>, entries: map<Key, Entry>, before: seq<Attempt>, key: Key)
    requires Exact(allowed, entries, before)
    requires key == Overflow || key in Admitted(before) || |Admitted(before)| < MAX_KEYS
    ensures key in entries <==> Under(key, Admitted(before), before) != []
  {
    AdmittedFacts(before);
    if key != Overflow && key !in Admitted(before) {
      UnderOfNewPair(key, Admitted(before), before);
    }
  }

  lemma SizeOfEntries(allowed: seq<U32>, entries: map<Key, Entry>, attempts: seq<Attempt>)
    requires Exact(allowed, entries, attempts)
    ensures |entries| <= MAX_KEYS + 1
    ensures |entries| >= MAX_KEYS <==> |Admitted(attempts)| == MAX_KEYS
  {
    hide Admitted, Under, ExactEntry;
    AdmittedFacts(attempts);
    var admitted := Admitted(attempts);
    assert |entries.Keys| == |entries|;
    if |admitted| < MAX_KEYS {
      NothingOverflows(admitted, attempts);
    }
    if Overflow in entries {
      assert entries.Keys == admitted + {Overflow};
    } else {
      assert entries.Keys == admitted;
    }
  }

  /** Whatever was recorded, every entry is exact over all its attempts, the
      overflow entry holds exactly the pairs that were never admitted, and there
      are never more than seventeen. */
  lemma {:induction false} TallyIsExact(allowed: seq<U32>, attempts: seq<Attempt>)
    ensures Exact(allowed, Replay(allowed, attempts), attempts)
    ensures |Replay(allowed, attempts)| <= MAX_KEYS + 1
    decreases |attempts|
  {
    if attempts != [] {
      var before, last := attempts[..|attempts| - 1], attempts[|attempts| - 1];
      TallyIsExact(allowed, before);
      ExactStep(allowed, Replay(allowed, before), before, last);
      assert before + [last] == attempts;
    }
    SizeOfEntries(allowed, Replay(allowed, attempts), attempts);
  }

  // ---- nothing is counted twice, nothing is lost ---------------------------------------

  /** Some key of the set; which one does not matter for a sum. */
  ghost function AnyOf(keys: set<Key>): (key: Key)
    requires keys != {}
    ensures key in keys
  {
    var key :| key in keys; key
  }

  /** The counts of the entries, added up. */
  ghost function TotalCount(entries: map<Key, Entry>, keys: set<Key>): nat
    requires keys <= entries.Keys
  {
    if keys == {} then 0
    else entries[AnyOf(keys)].count + TotalCount(entries, keys - {AnyOf(keys)})
  }

  ghost function TotalUnder(keys: set<Key>, admitted: set<Key>, attempts: seq<Attempt>): nat {
    if keys == {} then 0
    else |Under(AnyOf(keys), admitted, attempts)| + TotalUnder(keys - {AnyOf(keys)}, admitted, attempts)
  }

  function Speaker(admitted: set<Key>, attempt: Attempt): Key {
    if PairOf(attempt) in admitted then PairOf(attempt) else Overflow
  }

  lemma {:induction false} TotalUnderStep(keys: set<Key>, admitted: set<Key>, before: seq<Attempt>, attempt: Attempt)
    requires keys <= admitted + {Overflow} && Overflow !in admitted
    ensures TotalUnder(keys, admitted, before + [attempt])
         == TotalUnder(keys, admitted, before) + if Speaker(admitted, attempt) in keys then 1 else 0
  {
    if keys != {} {
      var key := AnyOf(keys);
      UnderStep(key, admitted, before, attempt);
      TotalUnderStep(keys - {key}, admitted, before, attempt);
      assert SpeaksFor(key, admitted, attempt) <==> key == Speaker(admitted, attempt);
    }
  }

  lemma {:induction false} TotalUnderOfNone(keys: set<Key>, admitted: set<Key>)
    ensures TotalUnder(keys, admitted, []) == 0
  {
    if keys != {} {
      TotalUnderOfNone(keys - {AnyOf(keys)}, admitted);
    }
  }

  lemma {:induction false} EachAttemptOnce(keys: set<Key>, admitted: set<Key>, attempts: seq<Attempt>)
    requires keys <= admitted + {Overflow} && Overflow !in admitted
    requires forall a | a in attempts :: Speaker(admitted, a) in keys
    ensures TotalUnder(keys, admitted, attempts) == |attempts|
    decreases |attempts|
  {
    if attempts == [] {
      TotalUnderOfNone(keys, admitted);
    } else {
      var before, last := attempts[..|attempts| - 1], attempts[|attempts| - 1];
      assert before + [last] == attempts && last in attempts;
      EachAttemptOnce(keys, admitted, before);
      TotalUnderStep(keys, admitted, before, last);
    }
  }

  lemma {:induction false} UnderIsNoLonger(key: Key, admitted: set<Key>, attempts: seq<Attempt>)
    ensures |Under(key, admitted, attempts)| <= |attempts|
    ensures forall a | a in attempts && SpeaksFor(key, admitted, a) :: a in Under(key, admitted, attempts)
    decreases |attempts|
  {
    if attempts != [] {
      var before, last := attempts[..|attempts| - 1], attempts[|attempts| - 1];
      UnderIsNoLonger(key, admitted, before);
      assert forall a | a in attempts :: a in before || a == last;
    }
  }

  lemma {:induction false} CountsAreUnders(allowed: seq<U32>, entries: map<Key, Entry>, attempts: seq<Attempt>,
                                           keys: set<Key>)
    requires Exact(allowed, entries, attempts) && |attempts| <= U64_MAX && keys <= entries.Keys
    ensures TotalCount(entries, keys) == TotalUnder(keys, Admitted(attempts), attempts)
  {
    if keys != {} {
      var key := AnyOf(keys);
      assert ExactEntry(allowed, key, entries[key], attempts);
      UnderIsNoLonger(key, Admitted(attempts), attempts);
      CountsAreUnders(allowed, entries, attempts, keys - {key});
    }
  }

  /** The counts add up to the calls: none missing, none twice. */
  lemma CountsSumToCalls(allowed: seq<U32>, attempts: seq<Attempt>)
    requires |attempts| <= U64_MAX
    ensures TotalCount(Replay(allowed, attempts), Replay(allowed, attempts).Keys) == |attempts|
  {
    var entries, admitted := Replay(allowed, attempts), Admitted(attempts);
    TallyIsExact(allowed, attempts);
    AdmittedFacts(attempts);
    CountsAreUnders(allowed, entries, attempts, entries.Keys);
    UnderIsNoLonger(Overflow, admitted, attempts);
    EachAttemptOnce(entries.Keys, admitted, attempts);
  }

  // ---- the lines the host sees ------------------------------------------------------------

  /** One report line. */
  datatype Line = Line(key: Key, entry: Entry)

  /** What the host keeps: per key the largest count it has seen. */
  function Kept(lines: seq<Line>): map<Key, U64> {
    if lines == [] then map[]
    else
      var before, last := Kept(lines[..|lines| - 1]), lines[|lines| - 1];
      before[last.key := if last.key in before then Max(before[last.key], last.entry.count) else last.entry.count]
  }

  /** A line some flush wrote: an entry of the tally at some earlier moment. */
  ghost predicate Written(allowed: seq<U32>, attempts: seq<Attempt>, line: Line) {
    exists n | 0 <= n <= |attempts| ::
      var then' := Replay(allowed, attempts[..n]);
      line.key in then' && line.entry == then'[line.key]
  }

  lemma {:induction false} CountsGrow(allowed: seq<U32>, attempts: seq<Attempt>, n: nat, key: Key)
    requires n <= |attempts| && key in Replay(allowed, attempts[..n])
    ensures key in Replay(allowed, attempts)
    ensures Replay(allowed, attempts[..n])[key].count <= Replay(allowed, attempts)[key].count
    decreases |attempts|
  {
    if n == |attempts| {
      assert attempts[..n] == attempts;
    } else {
      var before := attempts[..|attempts| - 1];
      assert before[..n] == attempts[..n];
      CountsGrow(allowed, before, n, key);
    }
  }

  ghost predicate IsOfLine(lines: seq<Line>, key: Key, count: U64) {
    exists line :: line in lines && line.key == key && line.entry.count == count
  }

  lemma {:induction false} KeptIsLargest(lines: seq<Line>)
    ensures forall line | line in lines :: line.key in Kept(lines) && line.entry.count <= Kept(lines)[line.key]
    ensures forall key | key in Kept(lines) :: IsOfLine(lines, key, Kept(lines)[key])
    decreases |lines|
  {
    if lines != [] {
      var before, last := lines[..|lines| - 1], lines[|lines| - 1];
      KeptIsLargest(before);
      assert lines == before + [last];
      assert Kept(lines) == Kept(before)[last.key := if last.key in Kept(before)
                                                     then Max(Kept(before)[last.key], last.entry.count)
                                                     else last.entry.count];
      hide Kept, IsOfLine;
      assert forall line | line in lines :: line in before || line == last;
      forall key | key in Kept(lines)
        ensures IsOfLine(lines, key, Kept(lines)[key])
      {
        if key == last.key && Kept(lines)[key] == last.entry.count {
          ThisLine(lines, last);
        } else {
          MoreLines(before, last, key, Kept(before)[key]);
        }
      }
    }
  }

  lemma ThisLine(lines: seq<Line>, line: Line)
    requires line in lines
    ensures IsOfLine(lines, line.key, line.entry.count)
  {
  }

  lemma MoreLines(lines: seq<Line>, last: Line, key: Key, count: U64)
    requires IsOfLine(lines, key, count)
    ensures IsOfLine(lines + [last], key, count)
  {
    var line :| line in lines && line.key == key && line.entry.count == count;
    assert line in lines + [last];
  }

  /** Late lines undo nothing: whatever lines of whatever flushes arrive in whatever
      order, once those of the last flush are among them the host holds exactly the
      running totals. */
  lemma HostKeepsTheTotals(allowed: seq<U32>, attempts: seq<Attempt>, lines: seq<Line>)
    requires forall line | line in lines :: Written(allowed, attempts, line)
    requires forall key | key in Replay(allowed, attempts) :: Line(key, Replay(allowed, attempts)[key]) in lines
    ensures Kept(lines).Keys == Replay(allowed, attempts).Keys
    ensures forall key | key in Kept(lines) :: Kept(lines)[key] == Replay(allowed, attempts)[key].count
  {
    hide Kept, Replay;
    KeptIsLargest(lines);
    var totals := Replay(allowed, attempts);
    forall key | key in totals
      ensures key in Kept(lines)
    {
      assert Line(key, totals[key]) in lines;
    }
    forall key | key in Kept(lines)
      ensures key in totals && Kept(lines)[key] == totals[key].count
    {
      assert IsOfLine(lines, key, Kept(lines)[key]);
      var line :| line in lines && line.key == key && line.entry.count == Kept(lines)[key];
      WrittenIsNoMore(allowed, attempts, line);
      assert Line(key, totals[key]) in lines;
    }
  }

  lemma WrittenIsNoMore(allowed: seq<U32>, attempts: seq<Attempt>, line: Line)
    requires Written(allowed, attempts, line)
    ensures line.key in Replay(allowed, attempts) && line.entry.count <= Replay(allowed, attempts)[line.key].count
  {
    hide Replay;
    var n :| 0 <= n <= |attempts| && line.key in Replay(allowed, attempts[..n])
      && line.entry == Replay(allowed, attempts[..n])[line.key];
    CountsGrow(allowed, attempts, n, line.key);
  }
}
