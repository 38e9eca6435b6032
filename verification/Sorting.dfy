/** Sorting strings, by insertion. */
module Sorting {
  import opened Decimal
  import opened Lists

  function Insert(s: string, list: seq<string>): (r: seq<string>)
    ensures multiset(r) == multiset(list) + multiset{s}
  {
    if list == [] || !Before(list[0], s) then [s] + list
    else
      assert list == [list[0]] + list[1..];
      [list[0]] + Insert(s, list[1..])
  }

  function Sort(list: seq<string>): (r: seq<string>)
    ensures multiset(r) == multiset(list)
  {
    if list == [] then []
    else
      assert list == [list[0]] + list[1..];
      Insert(list[0], Sort(list[1..]))
  }

  /** No string stands behind one it sorts before. */
  ghost predicate InOrder(list: seq<string>) {
    forall i | 0 <= i < |list| - 1 :: !Before(list[i + 1], list[i])
  }

  lemma {:induction false} BeforeIsAsymmetric(a: string, b: string)
    requires Before(a, b)
    ensures !Before(b, a)
  {
    if a != [] && a[0] == b[0] {
      BeforeIsAsymmetric(a[1..], b[1..]);
    }
  }

  lemma {:induction false} InsertKeepsOrder(s: string, list: seq<string>)
    requires InOrder(list)
    ensures InOrder(Insert(s, list))
    ensures list != [] && Before(list[0], s) ==> Insert(s, list)[0] == list[0]
  {
    if list != [] && Before(list[0], s) {
      var rest := list[1..];
      forall i | 0 <= i < |rest| - 1
        ensures !Before(rest[i + 1], rest[i])
      {
        assert rest[i] == list[i + 1] && rest[i + 1] == list[i + 2];
      }
      InsertKeepsOrder(s, rest);
      var tail := Insert(s, rest);
      BeforeIsAsymmetric(list[0], s);
      assert tail[0] == s || (rest != [] && tail[0] == rest[0]);
      assert rest != [] ==> !Before(list[1], list[0]);
      var r := [list[0]] + tail;
      forall i | 0 <= i < |r| - 1
        ensures !Before(r[i + 1], r[i])
      {
        if i > 0 {
          assert r[i] == tail[i - 1] && r[i + 1] == tail[i];
        }
      }
    }
  }

  lemma {:induction false} SortSorts(list: seq<string>)
    ensures InOrder(Sort(list))
  {
    if list != [] {
      SortSorts(list[1..]);
      InsertKeepsOrder(list[0], Sort(list[1..]));
    }
  }

  lemma SortKeepsMembers(list: seq<string>)
    ensures forall s :: s in Sort(list) <==> s in list
  {
    assert forall s :: s in Sort(list) <==> s in multiset(Sort(list));
    assert forall s :: s in list <==> s in multiset(list);
  }

  lemma DistinctTail(list: seq<string>)
    requires list != []
    ensures Distinct(list) <==> Distinct(list[1..]) && list[0] !in list[1..]
  {
  }

  lemma {:induction false} DistinctCounts(list: seq<string>)
    ensures Distinct(list) <==> forall s :: multiset(list)[s] <= 1
  {
    if list != [] {
      hide Distinct;
      var first, rest := list[0], list[1..];
      DistinctTail(list);
      DistinctCounts(rest);
      assert list == [first] + rest;
      assert forall s :: multiset(list)[s] == multiset(rest)[s] + if s == first then 1 else 0;
      assert first in rest <==> multiset(rest)[first] >= 1;
    }
  }

  lemma SortKeepsDistinct(list: seq<string>)
    requires Distinct(list)
    ensures Distinct(Sort(list))
  {
    DistinctCounts(list);
    DistinctCounts(Sort(list));
  }
}
