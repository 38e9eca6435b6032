/** Before the agent starts, every descriptor the child does not need is closed. */
module Descriptors {
  /** `c_int`, as far as descriptors go. */
  type Fd = x: int | -0x8000_0000 <= x <= 0x7fff_ffff

  const FD_MAX: Fd := 0x7fff_ffff

  /** The first number behind every descriptor. */
  const FD_END: int := 0x8000_0000

  predicate Increasing(s: seq<Fd>) { forall i, j | 0 <= i < j < |s| :: s[i] < s[j] }

  /** A descriptor into a sorted list, once. */
  function Insert(fd: Fd, list: seq<Fd>): (r: seq<Fd>)
    requires Increasing(list)
    ensures Increasing(r) && forall x :: x in r <==> x in list || x == fd
  {
    if list == [] || fd < list[0] then [fd] + list
    else
      assert list == [list[0]] + list[1..];
      if fd == list[0] then list
      else
        HeadIsLeast(list);
        var tail := Insert(fd, list[1..]);
        ConsIsIncreasing(list[0], tail);
        [list[0]] + tail
  }

  lemma HeadIsLeast(list: seq<Fd>)
    requires list != [] && Increasing(list)
    ensures Increasing(list[1..]) && forall x | x in list[1..] :: list[0] < x
  {
    assert forall k | 0 <= k < |list| - 1 :: list[1..][k] == list[k + 1];
  }

  lemma ConsIsIncreasing(head: Fd, tail: seq<Fd>)
    requires Increasing(tail) && forall x | x in tail :: head < x
    ensures Increasing([head] + tail)
  {
    var all := [head] + tail;
    forall i, j | 0 <= i < j < |all|
      ensures all[i] < all[j]
    {
      assert all[j] == tail[j - 1] && tail[j - 1] in tail;
    }
  }

  /** The descriptors to keep from 3 upwards, sorted and without duplicates. */
  function Kept(keep: seq<Fd>): (r: seq<Fd>)
    ensures Increasing(r) && forall x :: x in r <==> x in keep && x >= 3
  {
    if keep == [] then []
    else
      assert keep == [keep[0]] + keep[1..];
      if keep[0] >= 3 then Insert(keep[0], Kept(keep[1..])) else Kept(keep[1..])
  }

  /** Whether a descriptor is still open once all below `upto` are dealt with: a kept one
      is, but for the one that the last range takes with it. */
  predicate Stays(hasCloseRange: bool, hasListing: bool, keep: seq<Fd>, fd: Fd, upto: int) {
    || fd < 3
    || fd >= upto
    || (fd in keep && !(hasCloseRange && fd == FD_MAX))
    || !(hasCloseRange || hasListing)
  }

  /** What the child is to keep open: the three standard descriptors and its own. */
  function Wanted(held: set<Fd>, keep: seq<Fd>): set<Fd> { set fd | fd in held && (fd < 3 || fd in keep) }

  /** Exactly those are left, wherever descriptors can be closed at all, but for the one
      number no kernel hands out; and where they cannot, all of them. */
  lemma LeftIsWanted(hasCloseRange: bool, hasListing: bool, keep: seq<Fd>, held: set<Fd>, left: set<Fd>)
    requires forall fd :: fd in left <==> fd in held && Stays(hasCloseRange, hasListing, keep, fd, FD_END)
    ensures hasCloseRange || hasListing ==>
      (left == Wanted(held, keep) <==> !(hasCloseRange && FD_MAX in keep && FD_MAX in held))
    ensures !hasCloseRange && !hasListing ==> left == held
  {
  }

  /** A process: its open descriptors, and those of them an `exec` closes. */
  class Process {
    var descriptors: set<Fd>
    var cloexec: set<Fd>
    /** Whether the kernel has `close_range`, and whether `/proc/self/fd` can be listed. */
    const hasCloseRange: bool
    const hasListing: bool

    constructor (held: set<Fd>, cloexec: set<Fd>, hasCloseRange: bool, hasListing: bool)
      ensures this.descriptors == held && this.cloexec == cloexec
      ensures this.hasCloseRange == hasCloseRange && this.hasListing == hasListing
    {
      this.descriptors, this.cloexec := held, cloexec;
      this.hasCloseRange, this.hasListing := hasCloseRange, hasListing;
    }

    method CloseRange(first: Fd, last: Fd) returns (ok: bool)
      requires 3 <= first
      modifies this`descriptors
      ensures ok == hasCloseRange
      ensures forall fd :: fd in descriptors <==> fd in old(descriptors) && !(ok && first <= fd <= last)
    {
      if !hasCloseRange {
        return false;
      }
      descriptors := set fd | fd in descriptors && !(first <= fd <= last);
      return true;
    }

    method CloseByListing(first: Fd, last: Fd, keep: seq<Fd>)
      modifies this`descriptors
      ensures forall fd :: fd in descriptors <==>
        fd in old(descriptors) && !(hasListing && first <= fd <= last && fd !in keep)
    {
      if !hasListing {
        return;
      }
      var listing := descriptors;
      while listing != {}
        invariant listing <= old(descriptors)
        invariant forall fd :: fd in descriptors <==>
          fd in old(descriptors) && !(fd !in listing && first <= fd <= last && fd !in keep)
        decreases |listing|
      {
        var fd :| fd in listing;
        listing := listing - {fd};
        if first <= fd <= last && fd !in keep {
          descriptors := descriptors - {fd};
        }
      }
    }

    method SetCloexec(fd: Fd)
      modifies this`cloexec
      ensures cloexec == if fd in descriptors then old(cloexec) + {fd} else old(cloexec)
    {
      if fd in descriptors {
        cloexec := cloexec + {fd};
      }
    }

    method CloseInherited(keep: seq<Fd>)
      modifies this
      ensures forall fd :: fd in descriptors <==>
        fd in old(descriptors) && Stays(hasCloseRange, hasListing, keep, fd, FD_END)
      ensures hasCloseRange || hasListing ==>
        (descriptors == Wanted(old(descriptors), keep) <==>
          !(hasCloseRange && FD_MAX in keep && FD_MAX in old(descriptors)))
      ensures !hasCloseRange && !hasListing ==> descriptors == old(descriptors)
      ensures forall fd :: fd in cloexec <==>
        fd in old(cloexec) || (fd in keep && fd >= 3 && fd in descriptors)
    {
      var kept := Kept(keep);
      var first: Fd := 3;
      ghost var upto := 3;
      for i := 0 to |kept| + 1
        invariant first == if upto > FD_MAX then FD_MAX else upto
        invariant 3 <= upto <= FD_END && (i > |kept| ==> upto == FD_END)
        invariant i > 0 && i <= |kept| ==> upto - 1 == kept[i - 1]
        invariant i == 0 ==> upto == 3
        invariant forall fd :: fd in descriptors <==>
          fd in old(descriptors) && Stays(hasCloseRange, hasListing, keep, fd, upto)
        invariant cloexec == old(cloexec)
      {
        var fd := if i < |kept| then kept[i] else FD_MAX;
        var last := if fd == FD_MAX then fd else fd - 1;
        BetweenKept(keep, i, upto);
        ghost var before := descriptors;
        if first <= last {
          var ok := CloseRange(first, last);
          if !ok {
            CloseByListing(first, last, kept);
          }
        }
        forall x
          ensures x in descriptors <==> x in old(descriptors) && Stays(hasCloseRange, hasListing, keep, x, fd + 1)
        {
          assert x in before <==> x in old(descriptors) && Stays(hasCloseRange, hasListing, keep, x, upto);
        }
        first := if fd == FD_MAX then fd else fd + 1;
        upto := fd + 1;
      }
      ghost var left := descriptors;
      LeftIsWanted(hasCloseRange, hasListing, keep, old(descriptors), left);
      for i := 0 to |kept|
        invariant descriptors == left
        invariant forall fd :: fd in cloexec <==> fd in old(cloexec) || (fd in kept[..i] && fd in descriptors)
      {
        SetCloexec(kept[i]);
        assert kept[..i + 1] == kept[..i] + [kept[i]];
      }
      assert kept[..|kept|] == kept;
    }
  }

  /** Between two kept descriptors there is none. */
  lemma BetweenKept(keep: seq<Fd>, i: nat, upto: int)
    requires i <= |Kept(keep)|
    requires if i == 0 then upto == 3 else upto - 1 == Kept(keep)[i - 1]
    ensures var fd := if i < |Kept(keep)| then Kept(keep)[i] else FD_MAX;
      && 3 <= upto && upto - 1 <= fd
      && forall x: int | upto <= x < fd :: x !in keep
  {
    var kept := Kept(keep);
    assert i > 0 ==> kept[i - 1] in kept;
    assert i > 0 && i < |kept| ==> kept[i - 1] < kept[i];
    assert i < |kept| ==> kept[i] in kept;
    assert forall k | 0 <= k < i - 1 :: kept[k] < kept[i - 1];
    assert forall k | i < k < |kept| :: kept[i] < kept[k];
    forall x: Fd | x in keep && upto <= x
      ensures i < |kept| && x >= kept[i]
    {
      assert x in kept;
      var k :| 0 <= k < |kept| && kept[k] == x;
    }
  }
}
