/** The closure of the offline check: what a crate reaches over normal dependencies, with
    a shortest path to each. */
module Offline {
  type Id = string

  datatype Dep = Dep(pkg: Id, normal: bool)

  /** `cargo metadata`: the resolved nodes with their dependencies, and the names. */
  datatype Meta = Meta(nodes: map<Id, seq<Dep>>, names: map<Id, string>)

  function DepsOf(meta: Meta, id: Id): seq<Dep> { if id in meta.nodes then meta.nodes[id] else [] }

  function NameOf(meta: Meta, id: Id): string { if id in meta.names then meta.names[id] else id }

  function NamesOf(meta: Meta, route: seq<Id>): seq<string> {
    seq(|route|, i requires 0 <= i < |route| => NameOf(meta, route[i]))
  }

  // ---- what is reached -------------------------------------------------------------------

  predicate Edge(meta: Meta, a: Id, b: Id) { a in meta.nodes && Dep(b, true) in meta.nodes[a] }

  /** A chain of normal dependencies from one package to another. */
  predicate IsRoute(meta: Meta, root: Id, route: seq<Id>, to: Id) {
    && route != [] && route[0] == root && route[|route| - 1] == to
    && forall i | 0 <= i < |route| - 1 :: Edge(meta, route[i], route[i + 1])
  }

  ghost predicate Reaches(meta: Meta, root: Id, to: Id) { exists route :: IsRoute(meta, root, route, to) }

  lemma RouteGrows(meta: Meta, root: Id, route: seq<Id>, a: Id, b: Id)
    requires IsRoute(meta, root, route, a) && Edge(meta, a, b)
    ensures IsRoute(meta, root, route + [b], b)
  {
  }

  /** Every package the metadata speaks of. */
  function Packages(meta: Meta, root: Id): set<Id> {
    {root} + set id, dep | id in meta.nodes && dep in meta.nodes[id] :: dep.pkg
  }

  // ---- the search ------------------------------------------------------------------------

  type Routes = map<Id, seq<Id>>

  /** Routes from the root to packages of the metadata, with their names. */
  ghost predicate AreRoutes(meta: Meta, root: Id, routes: Routes, paths: map<Id, seq<string>>) {
    && paths.Keys == routes.Keys <= Packages(meta, root)
    && root in routes && routes[root] == [root]
    && forall id | id in routes :: IsRoute(meta, root, routes[id], id) && paths[id] == NamesOf(meta, routes[id])
  }

  /** Nothing found is further away than one step behind `reach`. */
  ghost predicate Within(routes: Routes, reach: nat) { forall id | id in routes :: |routes[id]| <= reach + 1 }

  /** The queue holds found packages, the nearest first, none nearer than `reach`. */
  ghost predicate Ordered(routes: Routes, queue: seq<Id>, reach: nat) {
    && (forall id | id in queue :: id in routes && reach <= |routes[id]|)
    && forall i, j | 0 <= i < j < |queue| :: |routes[queue[i]]| <= |routes[queue[j]]|
  }

  /** The dependency is found, and not further away than one step. */
  ghost predicate Taken(routes: Routes, from: Id, dep: Dep) {
    dep.normal ==> dep.pkg in routes && from in routes && |routes[dep.pkg]| <= |routes[from]| + 1
  }

  ghost predicate AllTaken(meta: Meta, routes: Routes, from: Id) {
    forall dep | dep in DepsOf(meta, from) :: Taken(routes, from, dep)
  }

  /** Whatever is found and no longer waits has been looked at. */
  ghost predicate Finished(meta: Meta, routes: Routes, queue: seq<Id>) {
    forall id | id in routes && id !in queue :: AllTaken(meta, routes, id)
  }

  ghost predicate Extends(routes: Routes, more: Routes) {
    forall id | id in routes :: id in more && more[id] == routes[id]
  }

  /** One more package found, one step behind the one that is looked at. */
  lemma Found(meta: Meta, root: Id, routes: Routes, paths: map<Id, seq<string>>, queue: seq<Id>, from: Id, to: Id)
    returns (more: Routes)
    requires AreRoutes(meta, root, routes, paths) && from in routes && to !in routes && Edge(meta, from, to)
    requires Ordered(routes, queue, |routes[from]|) && Within(routes, |routes[from]|)
    ensures more == routes[to := routes[from] + [to]] && Extends(routes, more)
    ensures AreRoutes(meta, root, more, paths[to := paths[from] + [NameOf(meta, to)]])
    ensures Ordered(more, queue + [to], |routes[from]|) && Within(more, |routes[from]|)
  {
    more := routes[to := routes[from] + [to]];
    RouteGrows(meta, root, routes[from], from, to);
    assert NamesOf(meta, routes[from] + [to]) == NamesOf(meta, routes[from]) + [NameOf(meta, to)];
    assert from in meta.nodes && Dep(to, true) in meta.nodes[from];
    var waiting := queue + [to];
    forall i, j | 0 <= i < j < |waiting|
      ensures |more[waiting[i]]| <= |more[waiting[j]]|
    {
      assert waiting[i] == queue[i] && queue[i] in queue;
      assert j < |queue| ==> waiting[j] == queue[j] && queue[j] in queue;
    }
  }

  lemma SameKeys(meta: Meta, root: Id, routes: Routes, paths: map<Id, seq<string>>)
    requires AreRoutes(meta, root, routes, paths)
    ensures paths.Keys == routes.Keys <= Packages(meta, root) && root in routes
  {
  }

  lemma TakenNow(routes: Routes, from: Id, dep: Dep)
    requires from in routes && Within(routes, |routes[from]|)
    ensures Taken(routes, from, dep) <==> dep.normal ==> dep.pkg in routes
  {
  }

  lemma PackageOf(meta: Meta, root: Id, from: Id, to: Id)
    requires Edge(meta, from, to)
    ensures to in Packages(meta, root)
  {
  }

  /** The first `n` dependencies are taken. */
  ghost predicate TakenUpTo(routes: Routes, from: Id, deps: seq<Dep>, n: nat) {
    n <= |deps| && forall j | 0 <= j < n :: Taken(routes, from, deps[j])
  }

  lemma TakenOneMore(before: Routes, routes: Routes, from: Id, deps: seq<Dep>, n: nat)
    requires n < |deps| && TakenUpTo(before, from, deps, n) && Extends(before, routes)
    requires Taken(routes, from, deps[n])
    ensures TakenUpTo(routes, from, deps, n + 1)
  {
  }

  ghost predicate NewWait(before: Routes, routes: Routes, queue: seq<Id>) {
    forall id | id in routes && id !in before :: id in queue
  }

  /** Looks at the dependencies of one package. */
  method Look(meta: Meta, root: Id, current: Id, paths0: map<Id, seq<string>>, queue0: seq<Id>, ghost routes0: Routes)
    returns (paths: map<Id, seq<string>>, queue: seq<Id>, ghost routes: Routes)
    requires AreRoutes(meta, root, routes0, paths0) && current in routes0
    requires Ordered(routes0, queue0, |routes0[current]|) && Within(routes0, |routes0[current]|)
    ensures AreRoutes(meta, root, routes, paths) && Extends(routes0, routes)
    ensures Ordered(routes, queue, |routes0[current]|) && Within(routes, |routes0[current]|)
    ensures AllTaken(meta, routes, current)
    ensures queue0 <= queue && NewWait(routes0, routes, queue)
    ensures (routes == routes0 && queue == queue0) ||
            |Packages(meta, root) - routes.Keys| < |Packages(meta, root) - routes0.Keys|
  {
    hide AreRoutes, Ordered, Within, Taken, Packages, NameOf;
    paths, queue, routes := paths0, queue0, routes0;
    var deps := DepsOf(meta, current);
    for i := 0 to |deps|
      invariant AreRoutes(meta, root, routes, paths) && Extends(routes0, routes)
      invariant Ordered(routes, queue, |routes0[current]|) && Within(routes, |routes0[current]|)
      invariant TakenUpTo(routes, current, deps, i)
      invariant queue0 <= queue && NewWait(routes0, routes, queue)
      invariant (routes == routes0 && queue == queue0) ||
                |Packages(meta, root) - routes.Keys| < |Packages(meta, root) - routes0.Keys|
    {
      var target := deps[i].pkg;
      ghost var before := routes;
      SameKeys(meta, root, routes, paths);
      TakenNow(routes, current, deps[i]);
      if target in paths || !deps[i].normal {
        TakenOneMore(before, routes, current, deps, i);
        continue;
      }
      assert deps[i] == Dep(target, true);
      PackageOf(meta, root, current, target);
      routes := Found(meta, root, routes, paths, queue, current, target);
      TakenNow(routes, current, deps[i]);
      TakenOneMore(before, routes, current, deps, i);
      Fewer(Packages(meta, root), before.Keys, routes.Keys, target);
      paths := paths[target := paths[current] + [NameOf(meta, target)]];
      queue := queue + [target];
    }
    assert AllTaken(meta, routes, current) by {
      forall dep | dep in DepsOf(meta, current)
        ensures Taken(routes, current, dep)
      {
        var j :| 0 <= j < |deps| && deps[j] == dep;
      }
    }
  }

  lemma Fewer(all: set<Id>, before: set<Id>, after: set<Id>, target: Id)
    requires target in all && target !in before && after == before + {target}
    ensures |all - after| < |all - before|
  {
    assert all - before == (all - after) + {target};
  }

  /** The packages of a route by their names, and by their numbers where they have none. */
  ghost predicate Tells(meta: Meta, route: seq<Id>, path: seq<string>) {
    && |path| == |route|
    && (forall i | 0 <= i < |route| && route[i] in meta.names :: path[i] == meta.names[route[i]])
    && (forall i | 0 <= i < |route| && route[i] !in meta.names :: path[i] == route[i])
  }

  /** Exactly what the root reaches, each package with the names along a route to it, and
      no route to it is shorter. */
  ghost predicate IsClosure(meta: Meta, root: Id, paths: map<Id, seq<string>>) {
    && (forall id :: id in paths <==> Reaches(meta, root, id))
    && (forall id | id in paths :: exists route :: IsRoute(meta, root, route, id) && Tells(meta, route, paths[id]))
    && (forall id, route | id in paths && IsRoute(meta, root, route, id) :: |paths[id]| <= |route|)
  }

  /** `normal_closure`. */
  method NormalClosure(meta: Meta, root: Id) returns (paths: map<Id, seq<string>>)
    ensures IsClosure(meta, root, paths)
  {
    ghost var routes: Routes;
    paths, routes := map[root := [NameOf(meta, root)]], map[root := [root]];
    var queue := [root];
    Start(meta, root);
    hide AreRoutes, Ordered, Within, Finished, AllTaken, Packages, NameOf, IsRoute, NewWait, Extends, NamesOf,
         IsClosure, NearestFirst;
    while queue != []
      invariant AreRoutes(meta, root, routes, paths) && Finished(meta, routes, queue)
      invariant NearestFirst(routes, queue)
      decreases |Packages(meta, root) - routes.Keys|, |queue|
    {
      var current := queue[0];
      ghost var waiting, found := queue, routes;
      queue := queue[1..];
      PopKeepsOrder(routes, waiting);
      paths, queue, routes := Look(meta, root, current, paths, queue, routes);
      LookFinishes(meta, found, waiting, routes, queue);
      NextInOrder(found, waiting, routes, queue);
    }
    ShortestOfAll(meta, root, routes, paths);
  }

  /** The front of the queue is the nearest package that waits, and nothing found is more
      than one step behind it. */
  ghost predicate NearestFirst(routes: Routes, queue: seq<Id>) {
    queue == [] ||
    (queue[0] in routes && Ordered(routes, queue, |routes[queue[0]]|) && Within(routes, |routes[queue[0]]|))
  }

  lemma Start(meta: Meta, root: Id)
    ensures var routes := map[root := [root]];
      && AreRoutes(meta, root, routes, map[root := [NameOf(meta, root)]])
      && Finished(meta, routes, [root]) && NearestFirst(routes, [root])
  {
  }

  lemma PopKeepsOrder(routes: Routes, queue: seq<Id>)
    requires queue != [] && NearestFirst(routes, queue)
    ensures queue[0] in routes
    ensures Ordered(routes, queue[1..], |routes[queue[0]]|) && Within(routes, |routes[queue[0]]|)
  {
  }

  lemma LookFinishes(meta: Meta, before: Routes, waiting: seq<Id>, routes: Routes, queue: seq<Id>)
    requires waiting != [] && Finished(meta, before, waiting) && Extends(before, routes)
    requires AllTaken(meta, routes, waiting[0]) && waiting[1..] <= queue
    requires NewWait(before, routes, queue)
    ensures Finished(meta, routes, queue)
  {
  }

  lemma NextInOrder(before: Routes, waiting: seq<Id>, routes: Routes, queue: seq<Id>)
    requires waiting != [] && waiting[0] in before
    requires Ordered(routes, queue, |before[waiting[0]]|) && Within(routes, |before[waiting[0]]|)
    ensures NearestFirst(routes, queue)
  {
  }

  /** When nothing waits any more, every route is matched by one found, no longer. */
  lemma {:induction false} NoRouteIsShorter(meta: Meta, root: Id, routes: Routes, paths: map<Id, seq<string>>,
                                            route: seq<Id>, to: Id)
    requires AreRoutes(meta, root, routes, paths) && Finished(meta, routes, [])
    requires IsRoute(meta, root, route, to)
    ensures to in routes && |routes[to]| <= |route|
    decreases |route|
  {
    if |route| > 1 {
      var shorter, from := route[..|route| - 1], route[|route| - 2];
      assert IsRoute(meta, root, shorter, from) by {
        assert forall i | 0 <= i < |shorter| :: shorter[i] == route[i];
      }
      NoRouteIsShorter(meta, root, routes, paths, shorter, from);
      assert Edge(meta, route[|route| - 2], route[|route| - 2 + 1]);
      assert AllTaken(meta, routes, from);
      assert Taken(routes, from, Dep(to, true));
    }
  }

  lemma ShortestOfAll(meta: Meta, root: Id, routes: Routes, paths: map<Id, seq<string>>)
    requires AreRoutes(meta, root, routes, paths) && Finished(meta, routes, [])
    ensures IsClosure(meta, root, paths)
  {
    forall id, route | IsRoute(meta, root, route, id)
      ensures id in routes && |routes[id]| <= |route| && |paths[id]| == |routes[id]|
    {
      NoRouteIsShorter(meta, root, routes, paths, route, id);
    }
    forall id | id in paths
      ensures IsRoute(meta, root, routes[id], id) && Tells(meta, routes[id], paths[id])
    {
    }
  }
}
