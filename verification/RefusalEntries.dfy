/** The entries of the tally in plain words: which calls each speaks for, why they were
    refused, how many they were, and when. */
module RefusalEntries {
  import opened Bits
  import opened Bpf
  import opened RefusalTally

  lemma PairInNumbers(attempt: Attempt)
    ensures PairOf(attempt) == Pair(attempt.family, attempt.rawType % 0x100)
  {
    Words();
    AndLow(attempt.rawType, 8);
    hide And;
  }

  /** The calls of the entry are in the order in which they came. */
  lemma {:induction false} UnderMembers(key: Key, admitted: set<Key>, attempts: seq<Attempt>)
    ensures forall a :: a in Under(key, admitted, attempts) <==> a in attempts && SpeaksFor(key, admitted, a)
  {
    if attempts != [] {
      var before, last := attempts[..|attempts| - 1], attempts[|attempts| - 1];
      UnderMembers(key, admitted, before);
      assert attempts == before + [last];
    }
  }

  ghost predicate IsFirst(attempts: seq<Attempt>, ms: U64) {
    (forall a | a in attempts :: ms <= a.nowMs) && exists a :: a in attempts && a.nowMs == ms
  }

  ghost predicate IsLast(attempts: seq<Attempt>, ms: U64) {
    (forall a | a in attempts :: a.nowMs <= ms) && exists a :: a in attempts && a.nowMs == ms
  }

  lemma {:induction false} TimesAreTheirs(attempts: seq<Attempt>)
    requires attempts != []
    ensures IsFirst(attempts, Earliest(attempts)) && IsLast(attempts, Latest(attempts))
  {
    var before, last := attempts[..|attempts| - 1], attempts[|attempts| - 1];
    assert attempts == before + [last] && last in attempts;
    if before != [] {
      TimesAreTheirs(before);
      assert forall a | a in before :: a in attempts;
    } else {
      assert forall a | a in attempts :: a == last;
    }
  }

  /** The calls an entry speaks for, by the numbers of the call. */
  ghost predicate IsOf(key: Key, admitted: set<Key>, attempt: Attempt) {
    var pair := Pair(attempt.family, attempt.rawType % 0x100);
    if key.Pair? then pair == key else pair !in admitted
  }

  /** Its reason is the type exactly if the policy allows its family; the overflow has its
      own. Its count is that of its calls, its times are the first and the last of theirs;
      and there is an overflow only behind sixteen pairs. */
  lemma EntryInWords(allowed: seq<U32>, attempts: seq<Attempt>, key: Key)
    requires key in Replay(allowed, attempts)
    ensures var entry, admitted := Replay(allowed, attempts)[key], Admitted(attempts);
      var calls := Under(key, admitted, attempts);
      && (entry.reason == ByType <==> key.Pair? && key.family in allowed)
      && (entry.reason == ByFamily <==> key.Pair? && key.family !in allowed)
      && (entry.reason == ByOverflow <==> key.Overflow?)
      && entry.count == (if |calls| < 0x1_0000_0000_0000_0000 then |calls| else 0xffff_ffff_ffff_ffff)
      && IsFirst(calls, entry.firstMs) && IsLast(calls, entry.lastMs)
      && (forall a :: a in calls <==> a in attempts && IsOf(key, admitted, a))
      && (key.Overflow? ==> |admitted| == 16) && |admitted| <= 16
  {
    TallyIsExact(allowed, attempts);
    var entries, admitted := Replay(allowed, attempts), Admitted(attempts);
    var calls := Under(key, admitted, attempts);
    assert ExactEntry(allowed, key, entries[key], attempts);
    TimesAreTheirs(calls);
    UnderMembers(key, admitted, attempts);
    AdmittedFacts(attempts);
    if key.Overflow? && |admitted| < 16 {
      NothingOverflows(admitted, attempts);
      assert false;
    }
    hide Replay, Admitted, Under, Earliest, Latest;
    forall a
      ensures a in calls <==> a in attempts && IsOf(key, admitted, a)
    {
      PairInNumbers(a);
    }
  }
}
