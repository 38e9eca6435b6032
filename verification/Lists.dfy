/** Lists as the programs build them: splitting at a separator, and vectors that
    take an item only once. */
module Lists {

  /** The parts of `s` between its separators; never empty. */
  function Split<T(==)>(s: seq<T>, sep: T): (parts: seq<seq<T>>)
    ensures parts != []
  {
    if s == [] then [[]]
    else
      var rest := Split(s[1..], sep);
      if s[0] == sep then [[]] + rest else [[s[0]] + rest[0]] + rest[1..]
  }

  function Join<T>(parts: seq<seq<T>>, sep: T): seq<T>
    requires parts != []
  {
    if |parts| == 1 then parts[0] else parts[0] + [sep] + Join(parts[1..], sep)
  }

  lemma {:induction false} PartsHoldNoSeparator<T>(s: seq<T>, sep: T)
    ensures forall part | part in Split(s, sep) :: sep !in part
  {
    if s != [] {
      PartsHoldNoSeparator(s[1..], sep);
      var rest := Split(s[1..], sep);
      assert rest[0] in rest;
      forall part | part in Split(s, sep)
        ensures sep !in part
      {
        assert part in rest || part == [] || (part == [s[0]] + rest[0] && s[0] != sep);
      }
    }
  }

  lemma {:induction false} JoinBack<T>(s: seq<T>, sep: T)
    ensures Join(Split(s, sep), sep) == s
  {
    if s != [] {
      JoinBack(s[1..], sep);
      var rest := Split(s[1..], sep);
      var parts := Split(s, sep);
      if s[0] == sep {
        assert parts[1..] == rest;
      } else {
        assert parts[0] == [s[0]] + rest[0] && parts[1..] == rest[1..];
        if |rest| > 1 {
          assert Join(parts, sep) == [s[0]] + (rest[0] + [sep] + Join(rest[1..], sep));
        }
      }
    }
  }

  /** Splitting loses nothing, and no part holds the separator. */
  lemma JoinOfSplit<T>(s: seq<T>, sep: T)
    ensures Join(Split(s, sep), sep) == s
    ensures forall part | part in Split(s, sep) :: sep !in part
  {
    JoinBack(s, sep);
    PartsHoldNoSeparator(s, sep);
  }

  /** Splitting undoes joining, for parts without the separator. */
  lemma {:induction false} SplitOfJoin<T>(parts: seq<seq<T>>, sep: T)
    requires parts != []
    requires forall part | part in parts :: sep !in part
    ensures Split(Join(parts, sep), sep) == parts
    decreases |parts|, |parts[0]|
  {
    var joined := Join(parts, sep);
    assert parts[0] in parts;
    if parts[0] == [] {
      if |parts| > 1 {
        SplitOfJoin(parts[1..], sep);
        assert joined[0] == sep && joined[1..] == Join(parts[1..], sep);
        assert Split(joined, sep) == [[]] + parts[1..];
      }
    } else {
      var first := parts[0];
      assert first[0] != sep;
      var shorter := [first[1..]] + parts[1..];
      assert forall part | part in shorter :: part == first[1..] || part in parts;
      SplitOfJoin(shorter, sep);
      assert shorter[1..] == parts[1..];
      assert joined[0] == first[0] && joined[1..] == Join(shorter, sep);
      assert [first[0]] + first[1..] == first;
    }
  }

  /** `push_unique`. */
  function PushUnique<T(==)>(list: seq<T>, item: T): seq<T> {
    if item in list then list else list + [item]
  }

  ghost predicate Distinct<T>(list: seq<T>) {
    forall i, j | 0 <= i < j < |list| :: list[i] != list[j]
  }
}
