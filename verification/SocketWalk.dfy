/** The bounded walk that looks for Unix sockets before the agent starts.

    What a call sees may change from one moment to the next, so the file system is a
    function of time; a fixed one does not look at it. */
module SocketWalk {
  import opened Wrappers
  import opened Decimal
  import opened Lists
  import opened Sorting

  /** A path from the root, component by component. */
  type Path = seq<string>

  datatype Kind = Socket | Dir | Symlink | OtherKind | Gone

  /** What `read_dir` lists, if it can, and what `lstat` says. */
  datatype World = World(list: (nat, Path) -> Option<seq<string>>, kind: (nat, Path) -> Kind)

  const MAX_DEPTH: nat := 3
  const MAX_ENTRIES: nat := 2000
  const SKIP: seq<Path> := [["proc"], ["sys"], ["dev"]]
  const SHM: Path := ["dev", "shm"]

  datatype Limit = NoLimit | Depth | Entries

  predicate IsEntered(w: World, time: nat, p: Path) { w.kind(time, p) == Dir && p !in SKIP }

  /** The directories among the entries `names` of `dir`, looked at one after the other. */
  function DirsAmong(w: World, time: nat, dir: Path, names: seq<string>): seq<Path>
    decreases |names|
  {
    if names == [] then []
    else
      var p := dir + [names[0]];
      (if IsEntered(w, time, p) then [p] else []) + DirsAmong(w, time + 1, dir, names[1..])
  }

  function SocketsAmong(w: World, time: nat, dir: Path, names: seq<string>): seq<Path>
    decreases |names|
  {
    if names == [] then []
    else
      var p := dir + [names[0]];
      (if w.kind(time, p) == Socket then [p] else []) + SocketsAmong(w, time + 1, dir, names[1..])
  }

  /** The entries themselves. */
  function Children(dir: Path, names: seq<string>): (entries: seq<Path>)
    ensures |entries| == |names| && forall i | 0 <= i < |names| :: entries[i] == dir + [names[i]]
  {
    seq(|names|, i requires 0 <= i < |names| => dir + [names[i]])
  }

  /** One entry more. */
  lemma {:induction false} AmongNext(w: World, time: nat, dir: Path, names: seq<string>, name: string)
    ensures var p := dir + [name];
      && DirsAmong(w, time, dir, names + [name])
         == DirsAmong(w, time, dir, names) + (if IsEntered(w, time + |names|, p) then [p] else [])
      && SocketsAmong(w, time, dir, names + [name])
         == SocketsAmong(w, time, dir, names) + if w.kind(time + |names|, p) == Socket then [p] else []
    decreases |names|
  {
    if names == [] {
      assert names + [name] == [name] && [name][1..] == [];
    } else {
      AmongNext(w, time + 1, dir, names[1..], name);
      assert (names + [name])[1..] == names[1..] + [name];
    }
  }

  /** What the walk holds between two directories; `seen` are the entries it looked at. */
  class Walk {
    var queue: seq<Path>
    var found: seq<Path>
    var entries: nat
    var limit: Limit
    var time: nat
    ghost var seen: seq<Path>

    constructor ()
      ensures queue == [[], SHM] && found == [] && entries == 0 && limit == NoLimit && time == 0 && seen == []
    {
      queue, found, entries, limit, time, seen := [[], SHM], [], 0, NoLimit, 0, [];
    }

    function Measure(): nat
      reads this
      requires entries <= MAX_ENTRIES
    {
      2 * (MAX_ENTRIES - entries) + |queue|
    }

    /** Looks at one entry: a socket is found, and a directory will be read. */
    method See(w: World, path: Path)
      requires entries < MAX_ENTRIES && limit != Entries
      modifies this
      ensures entries == old(entries) + 1 && time == old(time) + 1 && limit == old(limit)
      ensures seen == old(seen) + [path]
      ensures found == if w.kind(old(time), path) == Socket then old(found) + [path] else old(found)
      ensures queue == if IsEntered(w, old(time), path) then old(queue) + [path] else old(queue)
    {
      entries := entries + 1;
      seen := seen + [path];
      var kind := w.kind(time, path);
      if kind == Socket {
        found := found + [path];
      } else if kind == Dir && !(path in SKIP) {
        queue := queue + [path];
      }
      time := time + 1;
    }

    /** Looks at the entries of one directory, until the walk has seen enough: at all of
        them, or at as many as are still allowed and fewer than there are. */
    method Look(w: World, dir: Path, names: seq<string>)
      requires entries <= MAX_ENTRIES && limit != Entries
      modifies this
      ensures Measure.requires() && Measure() <= old(Measure())
      ensures var looked := if limit == Entries then 2000 - old(entries) else |names|;
        && 0 <= looked <= |names| && entries == old(entries) + looked <= 2000
        && seen == old(seen) + Children(dir, names[..looked])
        && found == old(found) + SocketsAmong(w, old(time), dir, names[..looked])
        && (limit == old(limit) || (limit == Entries && looked < |names| && queue == []))
      ensures limit != Entries ==> queue == old(queue) + DirsAmong(w, old(time), dir, names)
    {
      hide DirsAmong, SocketsAmong, Children, IsEntered, SHM, SKIP;
      var i := 0;
      NothingAmong(w, time, dir);
      assert names[..0] == [];
      while i < |names|
        invariant i <= |names| && entries == old(entries) + i <= MAX_ENTRIES && time == old(time) + i
        invariant Measure() <= old(Measure()) && limit == old(limit)
        invariant seen == old(seen) + Children(dir, names[..i])
        invariant queue == old(queue) + DirsAmong(w, old(time), dir, names[..i])
        invariant found == old(found) + SocketsAmong(w, old(time), dir, names[..i])
      {
        if entries + 1 > MAX_ENTRIES {
          limit := Entries;
          queue := [];
          return;
        }
        LookedAt(w, old(time), dir, names, i, old(seen), old(queue), old(found));
        See(w, dir + [names[i]]);
        i := i + 1;
      }
      assert names[..i] == names;
    }
  }

  lemma NothingAmong(w: World, time: nat, dir: Path)
    ensures DirsAmong(w, time, dir, []) == [] && SocketsAmong(w, time, dir, []) == [] && Children(dir, []) == []
  {
  }

  lemma OneChildMore(dir: Path, names: seq<string>, name: string)
    ensures Children(dir, names + [name]) == Children(dir, names) + [dir + [name]]
  {
  }

  lemma LookedAt(w: World, time: nat, dir: Path, names: seq<string>, i: nat, seen: seq<Path>, queue: seq<Path>,
                 found: seq<Path>)
    requires i < |names|
    ensures var p, kind := dir + [names[i]], w.kind(time + i, dir + [names[i]]);
      && seen + Children(dir, names[..i + 1]) == seen + Children(dir, names[..i]) + [p]
      && queue + DirsAmong(w, time, dir, names[..i + 1])
         == (if IsEntered(w, time + i, p) then queue + DirsAmong(w, time, dir, names[..i]) + [p]
             else queue + DirsAmong(w, time, dir, names[..i]))
      && found + SocketsAmong(w, time, dir, names[..i + 1])
         == if kind == Socket then found + SocketsAmong(w, time, dir, names[..i]) + [p]
            else found + SocketsAmong(w, time, dir, names[..i])
  {
    hide DirsAmong, SocketsAmong, Children;
    assert names[..i + 1] == names[..i] + [names[i]];
    AmongNext(w, time, dir, names[..i], names[i]);
    OneChildMore(dir, names[..i], names[i]);
  }

  // ---- a fixed file system ---------------------------------------------------------------

  ghost predicate Fixed(w: World) {
    && (forall time, p :: w.list(time, p) == w.list(0, p))
    && (forall time, p :: w.kind(time, p) == w.kind(0, p))
  }

  function Parent(p: Path): Path
    requires p != []
  {
    p[..|p| - 1]
  }

  /** The last component stands in the listing of its directory. */
  predicate Listed(w: World, p: Path)
    requires p != []
  {
    w.list(0, Parent(p)).Some? && p[|p| - 1] in w.list(0, Parent(p)).value
  }

  /** The directories a walk without bounds would read: the root, `/dev/shm`, and below
      them every listed directory but `/proc`, `/sys` and `/dev`. */
  ghost predicate Entered(w: World, d: Path) {
    || d == [] || d == ["dev", "shm"]
    || (Entered(w, Parent(d)) && Listed(w, d) && w.kind(0, d) == Dir && d != ["proc"] && d != ["sys"] && d != ["dev"])
  }

  /** An entry of such a directory, reached over no symbolic link. */
  ghost predicate IsEntry(w: World, p: Path) { p != [] && Entered(w, Parent(p)) && Listed(w, p) }

  lemma {:induction false} AmongMembers(w: World, time: nat, dir: Path, names: seq<string>, p: Path)
    requires Fixed(w)
    ensures p in DirsAmong(w, time, dir, names) <==>
      p != [] && Parent(p) == dir && p[|p| - 1] in names && IsEntered(w, 0, p)
    decreases |names|
  {
    if names != [] {
      var child := dir + [names[0]];
      AmongMembers(w, time + 1, dir, names[1..], p);
      assert Parent(child) == dir && child[|child| - 1] == names[0];
      assert p != [] && Parent(p) == dir && p[|p| - 1] == names[0] ==> p == child;
      assert names == [names[0]] + names[1..];
    }
  }

  lemma ChildMembers(dir: Path, names: seq<string>, p: Path)
    ensures p in Children(dir, names) <==> p != [] && Parent(p) == dir && p[|p| - 1] in names
  {
    var children := Children(dir, names);
    if p in children {
      var i :| 0 <= i < |names| && children[i] == p;
      assert Parent(p) == dir && p[|p| - 1] == names[i];
    }
    if p != [] && Parent(p) == dir && p[|p| - 1] in names {
      var i :| 0 <= i < |names| && names[i] == p[|p| - 1];
      assert p == dir + [names[i]] == children[i];
    }
  }

  /** The sockets among entries that were looked at. */
  function SocketsOf(w: World, seen: seq<Path>): seq<Path> {
    if seen == [] then []
    else
      var before, p := SocketsOf(w, seen[..|seen| - 1]), seen[|seen| - 1];
      if w.kind(0, p) == Socket then before + [p] else before
  }

  lemma SocketsOfMore(w: World, seen: seq<Path>, p: Path)
    ensures SocketsOf(w, seen + [p]) == SocketsOf(w, seen) + if w.kind(0, p) == Socket then [p] else []
  {
    assert (seen + [p])[..|seen|] == seen;
  }

  lemma {:induction false} SocketsOfChildren(w: World, time: nat, dir: Path, names: seq<string>, seen: seq<Path>)
    requires Fixed(w)
    ensures SocketsOf(w, seen + Children(dir, names)) == SocketsOf(w, seen) + SocketsAmong(w, time, dir, names)
  {
    hide SocketsAmong, Children, SocketsOf, DirsAmong;
    NothingAmong(w, time, dir);
    if names == [] {
      assert seen + [] == seen && SocketsOf(w, seen) + [] == SocketsOf(w, seen);
    } else {
      var n := |names| - 1;
      var before, p := names[..n], dir + [names[n]];
      assert names == before + [names[n]];
      SocketsOfChildren(w, time, dir, before, seen);
      AmongNext(w, time, dir, before, names[n]);
      OneChildMore(dir, before, names[n]);
      assert seen + Children(dir, names) == seen + Children(dir, before) + [p];
      SocketsOfMore(w, seen + Children(dir, before), p);
      assert w.kind(time + n, p) == w.kind(0, p);
      hide Fixed;
      SameTail(SocketsOf(w, seen), SocketsAmong(w, time, dir, before), if w.kind(0, p) == Socket then [p] else []);
    }
  }

  lemma SameTail(a: seq<Path>, b: seq<Path>, c: seq<Path>)
    ensures a + b + c == a + (b + c)
  {
  }

  lemma {:induction false} SocketsOfMembers(w: World, seen: seq<Path>)
    ensures forall p :: p in SocketsOf(w, seen) <==> p in seen && w.kind(0, p) == Socket
    ensures Distinct(seen) ==> Distinct(SocketsOf(w, seen))
  {
    if seen != [] {
      var before, last := seen[..|seen| - 1], seen[|seen| - 1];
      SocketsOfMembers(w, before);
      assert seen == before + [last];
    }
  }

  // ---- which directories are read --------------------------------------------------------------

  ghost predicate Known(queue: seq<Path>, done: seq<Path>, d: Path) { d in queue || d in done }

  /** What a directory that was read has left behind. */
  ghost predicate WasRead(w: World, queue: seq<Path>, done: seq<Path>, seen: seq<Path>, p: Path) {
    p != [] && Parent(p) in done && |p| <= MAX_DEPTH && Listed(w, p) ==>
      p in seen && (IsEntered(w, 0, p) ==> Known(queue, done, p))
  }

  ghost predicate WalkInv(w: World, queue: seq<Path>, done: seq<Path>, seen: seq<Path>, limit: Limit) {
    && Known(queue, done, []) && Known(queue, done, SHM)
    && (forall d | Known(queue, done, d) :: Entered(w, d) && |d| <= MAX_DEPTH)
    && (forall p :: WasRead(w, queue, done, seen, p))
    && (limit == Depth <==> exists d | d in done :: |d| == MAX_DEPTH)
  }

  /** One directory that is not read: too deep, or not readable. */
  lemma NotRead(w: World, queue: seq<Path>, done: seq<Path>, seen: seq<Path>, limit: Limit, limit': Limit)
    requires queue != [] && limit != Entries && WalkInv(w, queue, done, seen, limit)
    requires |queue[0]| == MAX_DEPTH || w.list(0, queue[0]).None?
    requires limit' == if |queue[0]| == MAX_DEPTH then Depth else limit
    ensures WalkInv(w, queue[1..], done + [queue[0]], seen, limit')
  {
    var dir, rest, done' := queue[0], queue[1..], done + [queue[0]];
    KnownStays(queue, done, []);
    forall p
      ensures WasRead(w, rest, done', seen, p)
    {
      assert WasRead(w, queue, done, seen, p);
      KnownStays(queue, done, p);
    }
    forall d | Known(rest, done', d)
      ensures Entered(w, d) && |d| <= MAX_DEPTH
    {
      KnownStays(queue, done, d);
    }
    DepthStays(w, done, dir, limit, limit');
  }

  lemma DepthStays(w: World, done: seq<Path>, dir: Path, limit: Limit, limit': Limit)
    requires limit == Depth <==> exists d | d in done :: |d| == MAX_DEPTH
    requires limit' == if |dir| == MAX_DEPTH then Depth else limit
    ensures limit' == Depth <==> exists d | d in done + [dir] :: |d| == MAX_DEPTH
  {
  }

  lemma KnownStays(queue: seq<Path>, done: seq<Path>, d: Path)
    requires queue != []
    ensures Known(queue, done, d) <==> Known(queue[1..], done + [queue[0]], d)
  {
  }

  /** One directory that is read to its end. */
  lemma IsRead(w: World, queue: seq<Path>, done: seq<Path>, seen: seq<Path>, limit: Limit, time: nat,
               names: seq<string>)
    requires Fixed(w) && queue != [] && limit != Entries && WalkInv(w, queue, done, seen, limit)
    requires |queue[0]| < MAX_DEPTH && w.list(0, queue[0]).Some?
    requires forall name :: name in names <==> name in w.list(0, queue[0]).value
    ensures WalkInv(w, queue[1..] + DirsAmong(w, time, queue[0], names), done + [queue[0]],
                    seen + Children(queue[0], names), limit)
  {
    hide Children, DirsAmong, IsEntered, WasRead, Fixed, Entered;
    var dir, dirs := queue[0], DirsAmong(w, time, queue[0], names);
    var queue', done', seen' := queue[1..] + dirs, done + [dir], seen + Children(dir, names);
    forall d
      ensures Known(queue', done', d) <==> Known(queue, done, d) || d in dirs
    {
      KnownStays(queue, done, d);
    }
    forall d | Known(queue', done', d)
      ensures Entered(w, d) && |d| <= MAX_DEPTH
    {
      assert Known(queue, done, dir);
      if d in dirs {
        EnteredBelow(w, time, dir, names, d);
      }
    }
    forall p
      ensures WasRead(w, queue', done', seen', p)
    {
      LeavesRead(w, queue, done, seen, time, names, p);
    }
    DepthStays(w, done, dir, limit, limit);
  }

  lemma EnteredBelow(w: World, time: nat, dir: Path, names: seq<string>, d: Path)
    requires Fixed(w) && Entered(w, dir) && |dir| < MAX_DEPTH && d in DirsAmong(w, time, dir, names)
    requires w.list(0, dir).Some? && forall name :: name in names <==> name in w.list(0, dir).value
    ensures Entered(w, d) && |d| <= MAX_DEPTH
  {
    AmongMembers(w, time, dir, names, d);
    hide DirsAmong, Fixed;
    assert d != SKIP[0] && d != SKIP[1] && d != SKIP[2];
  }

  lemma LeavesRead(w: World, queue: seq<Path>, done: seq<Path>, seen: seq<Path>, time: nat, names: seq<string>,
                   p: Path)
    requires Fixed(w) && queue != [] && WasRead(w, queue, done, seen, p)
    requires w.list(0, queue[0]).Some? && forall name :: name in names <==> name in w.list(0, queue[0]).value
    ensures WasRead(w, queue[1..] + DirsAmong(w, time, queue[0], names), done + [queue[0]],
                    seen + Children(queue[0], names), p)
  {
    AmongMembers(w, time, queue[0], names, p);
    ChildMembers(queue[0], names, p);
    KnownStays(queue, done, p);
    hide DirsAmong, Children, Fixed, IsEntered;
  }

  // ---- each directory once -----------------------------------------------------------------------

  /** No directory lists a name twice. */
  ghost predicate DistinctLists(w: World) {
    forall d :: w.list(0, d).Some? ==> Distinct(w.list(0, d).value)
  }

  /** Every directory is known once, and its parent was read before it. */
  ghost predicate OnceInv(queue: seq<Path>, done: seq<Path>) {
    && Distinct(done + queue)
    && (forall d | d in done + queue && d != [] && d != SHM :: Parent(d) in done)
  }

  lemma OnceNotRead(queue: seq<Path>, done: seq<Path>)
    requires queue != [] && OnceInv(queue, done)
    ensures OnceInv(queue[1..], done + [queue[0]])
  {
    assert done + [queue[0]] + queue[1..] == done + queue;
  }

  lemma {:induction false} AmongDistinct(w: World, time: nat, dir: Path, names: seq<string>)
    requires Fixed(w) && Distinct(names)
    ensures Distinct(DirsAmong(w, time, dir, names))
    decreases |names|
  {
    if names != [] {
      var rest := names[1..];
      AmongDistinct(w, time + 1, dir, rest);
      var p := dir + [names[0]];
      AmongMembers(w, time + 1, dir, rest, p);
      assert p[|p| - 1] == names[0];
      assert names[0] !in rest by {
        assert forall i | 0 <= i < |rest| :: rest[i] == names[i + 1];
      }
    }
  }

  lemma ChildrenDistinct(dir: Path, names: seq<string>)
    requires Distinct(names)
    ensures Distinct(Children(dir, names))
  {
    var children := Children(dir, names);
    forall i, j | 0 <= i < j < |children|
      ensures children[i] != children[j]
    {
      assert children[i][|dir|] == names[i] && children[j][|dir|] == names[j];
    }
  }

  lemma DistinctConcat<T>(a: seq<T>, b: seq<T>)
    requires Distinct(a) && Distinct(b) && forall x | x in a :: x !in b
    ensures Distinct(a + b)
  {
    forall i, j | 0 <= i < j < |a + b|
      ensures (a + b)[i] != (a + b)[j]
    {
      if i < |a| <= j {
        assert a[i] in a && b[j - |a|] in b;
      }
    }
  }

  lemma DevIsNotEntered(w: World)
    ensures !Entered(w, Parent(SHM)) && !Entered(w, ["dev"])
  {
    assert Parent(SHM) == ["dev"] && ["dev"] != [] && |["dev"]| != |SHM|;
  }

  lemma NextIsNew(queue: seq<Path>, done: seq<Path>)
    requires queue != [] && OnceInv(queue, done)
    ensures queue[0] !in done
  {
    assert (done + queue)[|done|] == queue[0];
    assert forall i | 0 <= i < |done| :: (done + queue)[i] == done[i];
  }

  lemma OnceRead(w: World, time: nat, queue: seq<Path>, done: seq<Path>, names: seq<string>)
    requires Fixed(w) && Distinct(names) && queue != [] && OnceInv(queue, done)
    requires Entered(w, queue[0])
    ensures OnceInv(queue[1..] + DirsAmong(w, time, queue[0], names), done + [queue[0]])
  {
    var dir, dirs := queue[0], DirsAmong(w, time, queue[0], names);
    NextIsNew(queue, done);
    AmongDistinct(w, time, dir, names);
    forall p | p in done + queue
      ensures p !in dirs
    {
      AmongMembers(w, time, dir, names, p);
      DevIsNotEntered(w);
    }
    DistinctConcat(done + queue, dirs);
    assert done + [dir] + (queue[1..] + dirs) == done + queue + dirs;
    forall p | p in dirs
      ensures p != [] && Parent(p) in done + [dir]
    {
      AmongMembers(w, time, dir, names, p);
    }
  }

  // ---- level by level ----------------------------------------------------------------------------

  /** How far a path is from the root or, if it is below it, from `/dev/shm`. */
  function Level(p: Path): int { if SHM <= p then |p| - 2 else |p| }

  ghost predicate Levels(paths: seq<Path>) {
    forall i, j | 0 <= i < j < |paths| :: Level(paths[i]) <= Level(paths[j])
  }

  /** What waits is on the level of the next directory or one below, and what was looked at
      is no further. */
  ghost predicate LevelInv(queue: seq<Path>, seen: seq<Path>) {
    && Levels(queue) && Levels(seen)
    && (queue != [] ==> forall q | q in queue + seen :: Level(q) <= Level(queue[0]) + 1)
  }

  lemma LevelOfChild(w: World, dir: Path, name: string)
    requires Entered(w, dir)
    ensures Level(dir + [name]) == Level(dir) + 1
  {
    DevIsNotEntered(w);
    var child := dir + [name];
    assert |dir| == 1 ==> dir == [dir[0]] && child[0] == dir[0];
    assert |dir| >= 2 ==> (SHM <= child <==> SHM <= dir);
  }

  lemma LevelsMore(a: seq<Path>, b: seq<Path>, level: int)
    requires Levels(a) && (forall p | p in a :: Level(p) <= level) && forall p | p in b :: Level(p) == level
    ensures Levels(a + b)
  {
    forall i, j | 0 <= i < j < |a + b|
      ensures Level((a + b)[i]) <= Level((a + b)[j])
    {
      assert i < |a| ==> a[i] in a;
      assert j < |a| ==> a[j] in a;
      assert j >= |a| ==> b[j - |a|] in b;
      assert i >= |a| ==> b[i - |a|] in b;
    }
  }

  lemma LevelSkips(queue: seq<Path>, seen: seq<Path>)
    requires queue != [] && LevelInv(queue, seen)
    ensures LevelInv(queue[1..], seen)
  {
    var rest := queue[1..];
    assert forall q | q in rest :: q in queue;
    if rest != [] {
      assert rest[0] == queue[1];
      forall q | q in rest + seen
        ensures Level(q) <= Level(rest[0]) + 1
      {
        assert q in queue + seen;
      }
    }
  }

  lemma LevelStep(w: World, time: nat, queue: seq<Path>, seen: seq<Path>, names: seq<string>, part: seq<string>)
    requires Fixed(w) && queue != [] && LevelInv(queue, seen) && Entered(w, queue[0])
    ensures Levels(seen + Children(queue[0], part))
    ensures LevelInv(queue[1..] + DirsAmong(w, time, queue[0], names), seen + Children(queue[0], part))
  {
    var dir, rest, dirs := queue[0], queue[1..], DirsAmong(w, time, queue[0], names);
    var children, level := Children(queue[0], part), Level(queue[0]) + 1;
    forall p | p in children
      ensures Level(p) == level
    {
      var i :| 0 <= i < |part| && children[i] == p;
      LevelOfChild(w, dir, part[i]);
    }
    forall p | p in dirs
      ensures Level(p) == level
    {
      AmongMembers(w, time, dir, names, p);
      assert p == dir + [p[|p| - 1]];
      LevelOfChild(w, dir, p[|p| - 1]);
    }
    hide Children, DirsAmong, Level;
    assert forall q | q in rest :: q in queue + seen;
    assert forall q | q in seen :: q in queue + seen;
    LevelsMore(seen, children, level);
    assert Levels(rest) by { LevelSkips(queue, seen); }
    LevelsMore(rest, dirs, level);
    NextLevel(queue, rest + dirs, seen + children, dirs, level);
  }

  lemma NextLevel(queue: seq<Path>, next: seq<Path>, seen: seq<Path>, dirs: seq<Path>, level: int)
    requires queue != [] && level == Level(queue[0]) + 1 && Levels(queue) && Levels(next) && Levels(seen)
    requires next == queue[1..] + dirs && forall p | p in dirs :: Level(p) == level
    requires forall q | q in next + seen :: Level(q) <= level
    ensures LevelInv(next, seen)
  {
    if next != [] {
      assert if |queue| > 1 then next[0] == queue[1] else next[0] == dirs[0] && dirs[0] in dirs;
      assert Level(next[0]) >= level - 1;
    }
  }

  // ---- what was looked at ------------------------------------------------------------------------

  /** Two entries of one directory are in the order of their names. */
  ghost predicate InTurn(a: Path, b: Path) {
    a != [] && b != [] && Parent(a) == Parent(b) ==> !Before(b[|b| - 1], a[|a| - 1])
  }

  ghost predicate NamesInOrder(seen: seq<Path>) { forall i | 0 <= i < |seen| - 1 :: InTurn(seen[i], seen[i + 1]) }

  ghost predicate SeenInv(w: World, done: seq<Path>, seen: seq<Path>) {
    && (forall p | p in seen :: IsEntry(w, p) && |p| <= MAX_DEPTH && Parent(p) in done)
    && (DistinctLists(w) ==> Distinct(seen) && NamesInOrder(seen))
  }

  /** An entry of the first levels that was not looked at, no nearer than those that were. */
  ghost predicate IsLeftOut(w: World, seen: seq<Path>, p: Path) {
    IsEntry(w, p) && |p| <= 3 && (DistinctLists(w) ==> p !in seen) && forall q | q in seen :: Level(q) <= Level(p)
  }

  lemma SeenMore(w: World, done: seq<Path>, seen: seq<Path>, dir: Path, names: seq<string>, k: nat)
    requires Fixed(w) && SeenInv(w, done, seen) && Entered(w, dir) && |dir| < MAX_DEPTH && k <= |names|
    requires w.list(0, dir).Some? && forall name :: name in names <==> name in w.list(0, dir).value
    requires DistinctLists(w) ==> dir !in done && Distinct(names) && InOrder(names)
    ensures SeenInv(w, done + [dir], seen + Children(dir, names[..k]))
  {
    hide Entered, DistinctLists, Fixed;
    var part := names[..k];
    forall p | p in seen + Children(dir, part)
      ensures IsEntry(w, p) && |p| <= MAX_DEPTH && Parent(p) in done + [dir]
    {
      ChildMembers(dir, part, p);
    }
    if DistinctLists(w) {
      ChildrenDistinct(dir, part);
      forall p | p in seen
        ensures p !in Children(dir, part)
      {
        ChildMembers(dir, part, p);
      }
      DistinctConcat(seen, Children(dir, part));
      ChildrenInOrder(w, done, seen, dir, part);
    }
  }

  lemma ChildrenInOrder(w: World, done: seq<Path>, seen: seq<Path>, dir: Path, part: seq<string>)
    requires NamesInOrder(seen) && InOrder(part) && dir !in done
    requires forall p | p in seen :: p != [] && Parent(p) in done
    ensures NamesInOrder(seen + Children(dir, part))
  {
    hide Before;
    var children := Children(dir, part);
    var all := seen + children;
    forall i | 0 <= i < |all| - 1
      ensures InTurn(all[i], all[i + 1])
    {
      if i + 1 < |seen| {
        assert all[i] == seen[i] && all[i + 1] == seen[i + 1];
      } else if i < |seen| {
        assert all[i] in seen && Parent(all[i + 1]) == dir;
      } else {
        var j := i - |seen|;
        assert all[i] == children[j] && all[i + 1] == children[j + 1];
      }
    }
  }

  lemma LeavesOut(w: World, done: seq<Path>, seen: seq<Path>, queue: seq<Path>, dir: Path, names: seq<string>, k: nat)
    requires Fixed(w) && SeenInv(w, done, seen) && Entered(w, dir) && |dir| < MAX_DEPTH && k < |names|
    requires w.list(0, dir).Some? && forall name :: name in names <==> name in w.list(0, dir).value
    requires DistinctLists(w) ==> dir !in done && Distinct(names)
    requires queue != [] && queue[0] == dir && LevelInv(queue, seen)
    ensures IsLeftOut(w, seen + Children(dir, names[..k]), dir + [names[k]])
  {
    hide Entered, DistinctLists, Fixed;
    var part, p := names[..k], dir + [names[k]];
    assert Parent(p) == dir && p[|p| - 1] == names[k];
    ChildMembers(dir, part, p);
    LevelOfChild(w, dir, names[k]);
    forall q | q in seen + Children(dir, part)
      ensures Level(q) <= Level(p)
    {
      if q in seen {
        assert q in queue + seen;
      } else {
        ChildMembers(dir, part, q);
        assert q == dir + [q[|q| - 1]];
        LevelOfChild(w, dir, q[|q| - 1]);
      }
    }
  }

  // ---- the walk ------------------------------------------------------------------------------------

  ghost predicate AllInv(w: World, queue: seq<Path>, done: seq<Path>, seen: seq<Path>, limit: Limit) {
    && WalkInv(w, queue, done, seen, limit) && (DistinctLists(w) ==> OnceInv(queue, done))
    && SeenInv(w, done, seen) && LevelInv(queue, seen)
  }

  lemma AllNotRead(w: World, queue: seq<Path>, done: seq<Path>, seen: seq<Path>, limit: Limit, limit': Limit)
    requires queue != [] && limit != Entries && AllInv(w, queue, done, seen, limit)
    requires |queue[0]| == MAX_DEPTH || w.list(0, queue[0]).None?
    requires limit' == if |queue[0]| == MAX_DEPTH then Depth else limit
    ensures AllInv(w, queue[1..], done + [queue[0]], seen, limit')
  {
    NotRead(w, queue, done, seen, limit, limit');
    LevelSkips(queue, seen);
    hide WalkInv, LevelInv, DistinctLists;
    if DistinctLists(w) {
      OnceNotRead(queue, done);
    }
  }

  /** What is known before a directory is read. */
  lemma BeforeReading(w: World, queue: seq<Path>, done: seq<Path>, seen: seq<Path>, limit: Limit)
    requires queue != [] && AllInv(w, queue, done, seen, limit) && w.list(0, queue[0]).Some?
    ensures var names := Sort(w.list(0, queue[0]).value);
      && Entered(w, queue[0]) && (forall name :: name in names <==> name in w.list(0, queue[0]).value)
      && InOrder(names) && (DistinctLists(w) ==> queue[0] !in done && Distinct(names))
  {
    assert Known(queue, done, queue[0]);
    SortKeepsMembers(w.list(0, queue[0]).value);
    SortSorts(w.list(0, queue[0]).value);
    hide WalkInv, LevelInv, SeenInv;
    if DistinctLists(w) {
      NextIsNew(queue, done);
      SortKeepsDistinct(w.list(0, queue[0]).value);
    }
  }

  lemma AllRead(w: World, queue: seq<Path>, done: seq<Path>, seen: seq<Path>, limit: Limit, time: nat)
    requires Fixed(w) && queue != [] && limit != Entries && AllInv(w, queue, done, seen, limit)
    requires |queue[0]| < MAX_DEPTH && w.list(0, queue[0]).Some?
    ensures var names := Sort(w.list(0, queue[0]).value);
      AllInv(w, queue[1..] + DirsAmong(w, time, queue[0], names), done + [queue[0]],
             seen + Children(queue[0], names), limit)
  {
    var names := Sort(w.list(0, queue[0]).value);
    BeforeReading(w, queue, done, seen, limit);
    hide Sort, Fixed, DirsAmong, Children, Entered, DistinctLists, InOrder, WalkInv, LevelInv, SeenInv, OnceInv;
    IsRead(w, queue, done, seen, limit, time, names);
    LevelStep(w, time, queue, seen, names, names);
    assert names[..|names|] == names;
    SeenMore(w, done, seen, queue[0], names, |names|);
    if DistinctLists(w) {
      OnceRead(w, time, queue, done, names);
    }
  }

  /** The walk ends among the entries of a directory. */
  lemma EndsAmong(w: World, queue: seq<Path>, done: seq<Path>, seen: seq<Path>, limit: Limit, k: nat)
    requires Fixed(w) && queue != [] && limit != Entries && AllInv(w, queue, done, seen, limit)
    requires |queue[0]| < MAX_DEPTH && w.list(0, queue[0]).Some? && k < |Sort(w.list(0, queue[0]).value)|
    ensures var names := Sort(w.list(0, queue[0]).value);
      var seen' := seen + Children(queue[0], names[..k]);
      && SeenInv(w, done + [queue[0]], seen') && Levels(seen')
      && IsLeftOut(w, seen', queue[0] + [names[k]])
  {
    var names := Sort(w.list(0, queue[0]).value);
    BeforeReading(w, queue, done, seen, limit);
    hide Sort, Fixed, DirsAmong, Children, Entered, DistinctLists, InOrder, WalkInv, LevelInv, SeenInv, OnceInv;
    SeenMore(w, done, seen, queue[0], names, k);
    LevelStep(w, 0, queue, seen, names, names[..k]);
    LeavesOut(w, done, seen, queue, queue[0], names, k);
  }

  lemma StartOfAll(w: World)
    ensures AllInv(w, [[], SHM], [], [], NoLimit)
  {
  }

  lemma QueueIsShallow(w: World, queue: seq<Path>, done: seq<Path>, seen: seq<Path>, limit: Limit)
    requires AllInv(w, queue, done, seen, limit)
    ensures forall d | d in queue :: |d| <= MAX_DEPTH
  {
    assert forall d | d in queue :: Known(queue, done, d);
  }

  lemma FixedList(w: World, time: nat, dir: Path)
    ensures Fixed(w) ==> w.list(time, dir) == w.list(0, dir)
  {
  }

  // ---- the end of the walk ------------------------------------------------------------------------

  lemma {:induction false} EveryDirectoryWasRead(w: World, done: seq<Path>, seen: seq<Path>, limit: Limit, d: Path)
    requires WalkInv(w, [], done, seen, limit) && Entered(w, d) && |d| <= MAX_DEPTH
    ensures d in done
    decreases |d|
  {
    assert Known([], done, []) && Known([], done, SHM);
    if d != [] && d != SHM {
      EveryDirectoryWasRead(w, done, seen, limit, Parent(d));
      assert WasRead(w, [], done, seen, d);
      assert Known([], done, d);
    }
  }

  /** A directory below another is found through the one at its own third level. */
  lemma {:induction false} ThirdLevel(w: World, d: Path)
    requires Entered(w, d) && |d| >= MAX_DEPTH
    ensures Entered(w, d[..MAX_DEPTH])
    decreases |d|
  {
    if |d| == MAX_DEPTH {
      assert d[..MAX_DEPTH] == d;
    } else {
      ThirdLevel(w, Parent(d));
      assert Parent(d)[..MAX_DEPTH] == d[..MAX_DEPTH];
    }
  }

  /** In a fixed file system, if the entries sufficed, the walk looked at exactly the entries
      of the first three levels; and if it names no limit, at exactly all. */
  lemma ReportIsExact(w: World, done: seq<Path>, seen: seq<Path>, limit: Limit, p: Path)
    requires limit != Entries && WalkInv(w, [], done, seen, limit) && SeenInv(w, done, seen)
    ensures p in seen <==> IsEntry(w, p) && |p| <= 3
    ensures limit == NoLimit ==> (p in seen <==> IsEntry(w, p))
    ensures limit == NoLimit <==> !exists d :: Entered(w, d) && |d| == 3
  {
    if IsEntry(w, p) && |p| <= MAX_DEPTH {
      EveryDirectoryWasRead(w, done, seen, limit, Parent(p));
      assert WasRead(w, [], done, seen, p);
    }
    if limit == NoLimit && IsEntry(w, p) && |p| > MAX_DEPTH {
      ThirdLevel(w, Parent(p));
      EveryDirectoryWasRead(w, done, seen, limit, Parent(p)[..MAX_DEPTH]);
    }
    if limit == NoLimit {
      forall d | Entered(w, d) && |d| == MAX_DEPTH
        ensures false
      {
        EveryDirectoryWasRead(w, done, seen, limit, d);
      }
    } else {
      var d :| d in done && |d| == MAX_DEPTH;
      assert Known([], done, d);
    }
  }

  /** A path as the report prints it. */
  function Printed(p: Path): string { Join([""] + p, '/') }

  /** From the printed path the components can be read again. */
  lemma PrintedReads(p: Path)
    requires forall name | name in p :: '/' !in name
    ensures Split(Printed(p), '/') == [""] + p
  {
    SplitOfJoin([""] + p, '/');
  }

  function PrintedAll(paths: seq<Path>): (r: seq<string>)
    ensures |r| == |paths| && forall i | 0 <= i < |r| :: r[i] == Printed(paths[i])
  {
    seq(|paths|, i requires 0 <= i < |paths| => Printed(paths[i]))
  }

  /** What a walk through a fixed file system has looked at. */
  ghost predicate Looked(w: World, seen: seq<Path>, limit: Limit) {
    && (forall p | p in seen :: IsEntry(w, p) && |p| <= 3) && Levels(seen)
    && (limit == Entries ==> exists p :: IsLeftOut(w, seen, p))
    && (limit != Entries ==> forall p :: p in seen <==> IsEntry(w, p) && |p| <= 3)
    && (limit != Entries ==> (limit == Depth <==> exists d :: Entered(w, d) && |d| == 3))
    && (limit == NoLimit ==> forall p :: p in seen <==> IsEntry(w, p))
    && (DistinctLists(w) ==> Distinct(seen) && NamesInOrder(seen))
  }

  lemma AllIsLooked(w: World, done: seq<Path>, seen: seq<Path>, limit: Limit)
    requires limit != Entries && AllInv(w, [], done, seen, limit)
    ensures Looked(w, seen, limit)
  {
    hide WalkInv, Entered, IsEntry, DistinctLists, Levels, NamesInOrder;
    forall p: Path
      ensures p in seen <==> IsEntry(w, p) && |p| <= 3
      ensures limit == NoLimit ==> (p in seen <==> IsEntry(w, p))
    {
      ReportIsExact(w, done, seen, limit, p);
    }
    ReportIsExact(w, done, seen, limit, []);
  }

  lemma PartIsLooked(w: World, done: seq<Path>, seen: seq<Path>, p: Path)
    requires SeenInv(w, done, seen) && Levels(seen) && IsLeftOut(w, seen, p)
    ensures Looked(w, seen, Entries)
  {
  }

  /** `sockets`: level by level from the root and `/dev/shm`, within the two bounds. It ends in
      every file system, a changing one too, and looks at no more entries than the bound.

      In a fixed one it reports exactly the sockets among the entries it looked at. These are
      all entries of the first three levels, unless it names the entries as its limit: then
      there are more than two thousand, and no nearer one was left out. */
  method Sockets(w: World)
    returns (sockets: seq<string>, entries: nat, limit: Limit, ghost seen: seq<Path>, ghost found: seq<Path>)
    ensures |seen| == entries <= 2000 && (limit == Entries ==> entries == 2000)
    ensures InOrder(sockets) && multiset(sockets) == multiset(PrintedAll(found))
    ensures Fixed(w) ==> Looked(w, seen, limit)
    ensures Fixed(w) ==> forall p :: p in found <==> p in seen && w.kind(0, p) == Socket
    ensures Fixed(w) && DistinctLists(w) ==> Distinct(found)
  {
    hide AllInv, Fixed, DirsAmong, SocketsAmong, Children, SocketsOf, Entered, DistinctLists, Looked, Sort,
         InOrder, PrintedAll, Distinct;
    var walk := new Walk();
    ghost var done: seq<Path> := [];
    StartOfAll(w);
    assert SocketsOf(w, []) == [] by { NoSockets(w); }
    while walk.queue != []
      invariant |walk.seen| == walk.entries <= MAX_ENTRIES
      invariant walk.limit == Entries ==> walk.queue == [] && walk.entries == MAX_ENTRIES
      invariant Fixed(w) ==> walk.found == SocketsOf(w, walk.seen)
      invariant Fixed(w) && walk.limit != Entries ==> AllInv(w, walk.queue, done, walk.seen, walk.limit)
      invariant Fixed(w) && walk.limit == Entries ==> Looked(w, walk.seen, walk.limit)
      decreases walk.Measure()
    {
      ghost var queue, before, was, limitBefore := walk.queue, done, walk.seen, walk.limit;
      if Fixed(w) {
        QueueIsShallow(w, queue, before, was, limitBefore);
      }
      var dir := walk.queue[0];
      walk.queue := walk.queue[1..];
      done := done + [dir];
      if |dir| + 1 > MAX_DEPTH {
        if walk.limit == NoLimit {
          walk.limit := Depth;
        }
        if Fixed(w) {
          AllNotRead(w, queue, before, was, limitBefore, walk.limit);
        }
      } else {
        var listing := w.list(walk.time, dir);
        FixedList(w, walk.time, dir);
        walk.time := walk.time + 1;
        if listing.Some? {
          var names := Sort(listing.value);
          ghost var time := walk.time;
          walk.Look(w, dir, names);
          if Fixed(w) {
            AfterLook(w, time, queue, before, was, limitBefore, walk.limit,
                      if walk.limit == Entries then 2000 - |was| else |names|);
          }
        } else if Fixed(w) {
          AllNotRead(w, queue, before, was, limitBefore, walk.limit);
        }
      }
    }
    seen, found := walk.seen, walk.found;
    if Fixed(w) {
      AtTheEnd(w, done, seen, walk.limit);
    }
    SortSorts(PrintedAll(found));
    return Sort(PrintedAll(walk.found)), walk.entries, walk.limit, seen, found;
  }

  lemma NoSockets(w: World)
    ensures SocketsOf(w, []) == []
  {
  }

  lemma AtTheEnd(w: World, done: seq<Path>, seen: seq<Path>, limit: Limit)
    requires if limit == Entries then Looked(w, seen, limit) else AllInv(w, [], done, seen, limit)
    ensures Looked(w, seen, limit)
    ensures forall p :: p in SocketsOf(w, seen) <==> p in seen && w.kind(0, p) == Socket
    ensures DistinctLists(w) ==> Distinct(SocketsOf(w, seen))
  {
    hide AllInv, SocketsOf, DistinctLists;
    SocketsOfMembers(w, seen);
    if limit != Entries {
      AllIsLooked(w, done, seen, limit);
    }
  }

  /** What the walk knows behind one directory, read to its end or not. */
  lemma AfterLook(w: World, time: nat, queue: seq<Path>, done: seq<Path>, seen: seq<Path>, limit: Limit,
                  limit': Limit, k: nat)
    requires Fixed(w) && queue != [] && limit != Entries && AllInv(w, queue, done, seen, limit)
    requires |queue[0]| < MAX_DEPTH && w.list(0, queue[0]).Some? && k <= |Sort(w.list(0, queue[0]).value)|
    requires limit' == Entries ==> k < |Sort(w.list(0, queue[0]).value)|
    requires limit' != Entries ==> k == |Sort(w.list(0, queue[0]).value)| && limit' == limit
    ensures var names := Sort(w.list(0, queue[0]).value);
      var seen' := seen + Children(queue[0], names[..k]);
      && SocketsOf(w, seen') == SocketsOf(w, seen) + SocketsAmong(w, time, queue[0], names[..k])
      && (limit' == Entries ==> Looked(w, seen', limit'))
      && (limit' != Entries ==>
            AllInv(w, queue[1..] + DirsAmong(w, time, queue[0], names), done + [queue[0]], seen', limit'))
  {
    hide AllInv, Fixed, DirsAmong, SocketsAmong, Children, SocketsOf, Sort, Looked;
    var names := Sort(w.list(0, queue[0]).value);
    if limit' == Entries {
      EntriesEnd(w, time, queue, done, seen, limit, k);
    } else {
      assert names[..k] == names;
      SocketsOfChildren(w, time, queue[0], names, seen);
      AllRead(w, queue, done, seen, limit, time);
    }
  }

  lemma EntriesEnd(w: World, time: nat, queue: seq<Path>, done: seq<Path>, seen: seq<Path>, limit: Limit, k: nat)
    requires Fixed(w) && queue != [] && limit != Entries && AllInv(w, queue, done, seen, limit)
    requires |queue[0]| < MAX_DEPTH && w.list(0, queue[0]).Some? && k < |Sort(w.list(0, queue[0]).value)|
    ensures var part := Sort(w.list(0, queue[0]).value)[..k];
      var seen' := seen + Children(queue[0], part);
      && Looked(w, seen', Entries)
      && SocketsOf(w, seen') == SocketsOf(w, seen) + SocketsAmong(w, time, queue[0], part)
  {
    hide AllInv, Fixed, DirsAmong, SocketsAmong, Children, SocketsOf, Sort, Looked;
    var names := Sort(w.list(0, queue[0]).value);
    EndsAmong(w, queue, done, seen, limit, k);
    SocketsOfChildren(w, time, queue[0], names[..k], seen);
    PartIsLooked(w, done + [queue[0]], seen + Children(queue[0], names[..k]), queue[0] + [names[k]]);
  }
}
