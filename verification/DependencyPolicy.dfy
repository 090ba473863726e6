/** The workspace dependency policy: two worklist searches over the package graph, and the paths they
    decide about. */
module DependencyPolicy {
  import opened Seqs

  type Package = string

  /** Internal dependencies of each package, in the order they are iterated. */
  type Graph = map<Package, seq<Package>>

  function Dependencies(g: Graph, p: Package): seq<Package> {
    if p in g then g[p] else []
  }

  /** Consecutive packages of `path` are dependencies of one another. */
  ghost predicate IsPath(g: Graph, path: seq<Package>) {
    path != [] && forall i :: 0 <= i < |path| - 1 ==> path[i + 1] in Dependencies(g, path[i])
  }

  /** `to` is reached from `from` by following zero or more dependencies. */
  ghost predicate Reaches(g: Graph, from: Package, to: Package) {
    exists path :: IsPath(g, path) && path[0] == from && path[|path| - 1] == to
  }

  /** By following at least one dependency. */
  ghost predicate ReachesByDependency(g: Graph, from: Package, to: Package) {
    exists via :: Reaches(g, from, via) && to in Dependencies(g, via)
  }

  lemma ReachesSelf(g: Graph, p: Package)
    ensures Reaches(g, p, p)
  {
    var path := [p];
    assert IsPath(g, path) && path[0] == p && path[|path| - 1] == p;
  }

  lemma ReachesNext(g: Graph, from: Package, via: Package, to: Package)
    requires Reaches(g, from, via) && to in Dependencies(g, via)
    ensures Reaches(g, from, to)
  {
    var path :| IsPath(g, path) && path[0] == from && path[|path| - 1] == via;
    var longer := path + [to];
    assert IsPath(g, longer) && longer[0] == from && longer[|longer| - 1] == to;
  }

  lemma {:induction false} ClosedContainsReached(g: Graph, closed: set<Package>, path: seq<Package>)
    requires IsPath(g, path) && path[0] in closed
    requires forall p, d :: p in closed && d in Dependencies(g, p) ==> d in closed
    ensures path[|path| - 1] in closed
  {
    if |path| > 1 {
      assert path[1] in Dependencies(g, path[0]);
      ClosedContainsReached(g, closed, path[1..]);
    }
  }

  /** A path with a first step, split after it. */
  lemma {:induction false} FirstHop(g: Graph, from: Package, to: Package)
    requires ReachesByDependency(g, from, to)
    ensures exists hop :: hop in Dependencies(g, from) && Reaches(g, hop, to)
  {
    var via :| Reaches(g, from, via) && to in Dependencies(g, via);
    var path :| IsPath(g, path) && path[0] == from && path[|path| - 1] == via;
    var longer := path + [to];
    assert IsPath(g, longer[1..]) by {
      forall i | 0 <= i < |longer[1..]| - 1
        ensures longer[1..][i + 1] in Dependencies(g, longer[1..][i])
      {
        assert longer[1..][i] == longer[i + 1] && longer[1..][i + 1] == longer[i + 2];
      }
    }
    assert longer[1] in Dependencies(g, from) by {
      assert longer[0] == from;
    }
    assert Reaches(g, longer[1], to);
  }

  lemma {:induction false} HopThenReaches(g: Graph, from: Package, hop: Package, path: seq<Package>)
    requires hop in Dependencies(g, from) && IsPath(g, path) && path[0] == hop
    ensures ReachesByDependency(g, from, path[|path| - 1])
  {
    var n := |path| - 1;
    if n == 0 {
      ReachesSelf(g, from);
      assert Reaches(g, from, from) && path[n] in Dependencies(g, from);
    } else {
      assert IsPath(g, path[..n]);
      HopThenReaches(g, from, hop, path[..n]);
      var before := path[..n][n - 1];
      var via :| Reaches(g, from, via) && before in Dependencies(g, via);
      ReachesNext(g, from, via, before);
      assert path[n] in Dependencies(g, path[n - 1]);
    }
  }

  // ---------------------------------------------------------------- the plain search

  /** Every package that can appear during a search from `start`. */
  ghost function Universe(g: Graph, start: Package): set<Package> {
    {start} + (set p, i | p in g && 0 <= i < |g[p]| :: g[p][i])
  }

  /** The search so far: what it visited or queued is reachable, and every dependency of a visited
      package is allowed and visited or queued. */
  ghost predicate Searching(g: Graph, start: Package, forbidden: set<Package>, visited: set<Package>, pending: seq<Package>) {
    && (start in visited || start in pending)
    && visited <= Universe(g, start) && (forall p :: p in pending ==> p in Universe(g, start))
    && (forall p :: p in visited || p in pending ==> Reaches(g, start, p))
    && (forall p, d :: p in visited && d in Dependencies(g, p) ==> d !in forbidden && (d in visited || d in pending))
  }

  lemma VisitNext(g: Graph, start: Package, forbidden: set<Package>, visited: set<Package>, pending: seq<Package>)
    requires Searching(g, start, forbidden, visited, pending) && pending != []
    requires forall d :: d in Dependencies(g, pending[0]) ==> d !in forbidden
    ensures Searching(g, start, forbidden, visited + {pending[0]}, pending[1..] + Dependencies(g, pending[0]))
  {
    var p := pending[0];
    assert pending == [p] + pending[1..];
    forall d | d in Dependencies(g, p)
      ensures Reaches(g, start, d) && d in Universe(g, start)
    {
      ReachesNext(g, start, p, d);
    }
  }

  lemma ReachedIsVisited(g: Graph, start: Package, visited: set<Package>, via: Package)
    requires start in visited && Reaches(g, start, via)
    requires forall p, d :: p in visited && d in Dependencies(g, p) ==> d in visited
    ensures via in visited
  {
    var path :| IsPath(g, path) && path[0] == start && path[|path| - 1] == via;
    ClosedContainsReached(g, visited, path);
  }

  lemma NothingForbidden(g: Graph, start: Package, forbidden: set<Package>, visited: set<Package>)
    requires Searching(g, start, forbidden, visited, [])
    ensures forall p :: ReachesByDependency(g, start, p) ==> p !in forbidden
  {
    hide Reaches, Universe;
    forall p | ReachesByDependency(g, start, p)
      ensures p !in forbidden
    {
      var via :| Reaches(g, start, via) && p in Dependencies(g, via);
      ReachedIsVisited(g, start, visited, via);
    }
  }

  lemma FewerUnvisited<T>(all: set<T>, visited: set<T>, p: T)
    requires p in all && p !in visited
    ensures |all - (visited + {p})| < |all - visited|
  {
    assert all - (visited + {p}) == (all - visited) - {p};
  }

  /** Queues the dependencies one by one, stopping at a forbidden one. */
  method QueueAllowed(dependencies: seq<Package>, forbidden: set<Package>, queued: seq<Package>)
    returns (bad: Option<Package>, pending: seq<Package>)
    ensures bad.Some? ==> bad.value in dependencies && bad.value in forbidden
    ensures bad.None? ==> pending == queued + dependencies && forall d :: d in dependencies ==> d !in forbidden
  {
    pending := queued;
    for i := 0 to |dependencies|
      invariant pending == queued + dependencies[..i]
      invariant forall d :: d in dependencies[..i] ==> d !in forbidden
    {
      var d := dependencies[i];
      if d in forbidden { return Some(d), pending; }
      pending := pending + [d];
      assert dependencies[..i + 1] == dependencies[..i] + [d];
    }
    assert dependencies[..|dependencies|] == dependencies;
    bad := None;
  }

  /** `reject_reachable`: refuses exactly when following dependencies from `start` meets a forbidden
      package, and names one. */
  method RejectReachable(g: Graph, start: Package, forbidden: set<Package>) returns (found: Option<Package>)
    ensures found.Some? ==> found.value in forbidden && ReachesByDependency(g, start, found.value)
    ensures found.None? ==> forall p :: ReachesByDependency(g, start, p) ==> p !in forbidden
  {
    hide Reaches, Universe;
    var pending, visited := [start], {};
    StartSearch(g, start, forbidden);
    while pending != []
      invariant Searching(g, start, forbidden, visited, pending)
      decreases |Universe(g, start) - visited|, |pending|
    {
      var package := pending[0];
      if package in visited {
        pending := pending[1..];
      } else {
        var bad, queued := QueueAllowed(Dependencies(g, package), forbidden, pending[1..]);
        if bad.Some? {
          assert Reaches(g, start, package);
          return bad;
        }
        VisitNext(g, start, forbidden, visited, pending);
        FewerUnvisited(Universe(g, start), visited, package);
        pending := queued;
        visited := visited + {package};
      }
    }
    NothingForbidden(g, start, forbidden, visited);
    found := None;
  }

  lemma StartSearch(g: Graph, start: Package, forbidden: set<Package>)
    ensures Searching(g, start, forbidden, {}, [start])
  {
    ReachesSelf(g, start);
  }

  // ---------------------------------------------------------------- the search with approved bridges

  /** A package reached through a first dependency, together with that dependency. */
  datatype Visit = Visit(package: Package, hop: Package)

  /** Some first hop reaches a forbidden package that does not approve the hop. */
  ghost predicate Violates(g: Graph, start: Package, forbidden: map<Package, set<Package>>, v: Visit) {
    v.hop in Dependencies(g, start) && Reaches(g, v.hop, v.package)
    && v.package in forbidden && v.hop !in forbidden[v.package]
  }

  predicate Allowed(forbidden: map<Package, set<Package>>, v: Visit) {
    v.package in forbidden ==> v.hop in forbidden[v.package]
  }

  function Through(packages: seq<Package>, hop: Package): seq<Visit> {
    seq(|packages|, i requires 0 <= i < |packages| => Visit(packages[i], hop))
  }

  function Hops(packages: seq<Package>): seq<Visit> {
    seq(|packages|, i requires 0 <= i < |packages| => Visit(packages[i], packages[i]))
  }

  ghost function Visits(g: Graph, start: Package): set<Visit> {
    set p, h | p in Universe(g, start) && h in Universe(g, start) :: Visit(p, h)
  }

  ghost predicate Bridging(g: Graph, start: Package, forbidden: map<Package, set<Package>>, visited: set<Visit>, pending: seq<Visit>) {
    && (forall h :: h in Dependencies(g, start) ==> Visit(h, h) in visited || Visit(h, h) in pending)
    && visited <= Visits(g, start) && (forall v :: v in pending ==> v in Visits(g, start))
    && (forall v :: v in visited || v in pending ==> v.hop in Dependencies(g, start) && Reaches(g, v.hop, v.package))
    && (forall v, d :: v in visited && d in Dependencies(g, v.package) ==>
          Visit(d, v.hop) in visited || Visit(d, v.hop) in pending)
    && (forall v :: v in visited ==> Allowed(forbidden, v))
  }

  lemma StartBridging(g: Graph, start: Package, forbidden: map<Package, set<Package>>)
    ensures Bridging(g, start, forbidden, {}, Hops(Dependencies(g, start)))
  {
    var deps := Dependencies(g, start);
    var pending := Hops(deps);
    forall h | h in deps
      ensures Visit(h, h) in pending
    {
      var i :| 0 <= i < |deps| && deps[i] == h;
      assert pending[i] == Visit(h, h);
    }
    forall v | v in pending
      ensures v.hop in deps && Reaches(g, v.hop, v.package) && v in Visits(g, start)
    {
      ReachesSelf(g, v.hop);
    }
  }

  lemma VisitThrough(g: Graph, start: Package, forbidden: map<Package, set<Package>>, visited: set<Visit>, pending: seq<Visit>)
    requires Bridging(g, start, forbidden, visited, pending) && pending != [] && Allowed(forbidden, pending[0])
    ensures Bridging(g, start, forbidden, visited + {pending[0]},
                     pending[1..] + Through(Dependencies(g, pending[0].package), pending[0].hop))
  {
    var v := pending[0];
    var deps := Dependencies(g, v.package);
    var more := Through(deps, v.hop);
    assert pending == [v] + pending[1..];
    forall d | d in deps
      ensures Visit(d, v.hop) in more
    {
      var i :| 0 <= i < |deps| && deps[i] == d;
      assert more[i] == Visit(d, v.hop);
    }
    forall x | x in more
      ensures x.hop == v.hop && Reaches(g, x.hop, x.package) && x in Visits(g, start)
    {
      assert x.package in deps;
      ReachesNext(g, v.hop, v.package, x.package);
      assert v in Visits(g, start) && x.package in Universe(g, start);
    }
  }

  lemma {:induction false} ClosedContainsVisits(g: Graph, visited: set<Visit>, hop: Package, path: seq<Package>)
    requires IsPath(g, path) && Visit(path[0], hop) in visited
    requires forall v, d :: v in visited && d in Dependencies(g, v.package) ==> Visit(d, v.hop) in visited
    ensures Visit(path[|path| - 1], hop) in visited
  {
    if |path| > 1 {
      assert path[1] in Dependencies(g, path[0]);
      ClosedContainsVisits(g, visited, hop, path[1..]);
    }
  }

  lemma NothingViolates(g: Graph, start: Package, forbidden: map<Package, set<Package>>, visited: set<Visit>)
    requires Bridging(g, start, forbidden, visited, [])
    ensures forall v :: !Violates(g, start, forbidden, v)
  {
    forall v: Visit | v.hop in Dependencies(g, start) && Reaches(g, v.hop, v.package)
      ensures !Violates(g, start, forbidden, v)
    {
      var path :| IsPath(g, path) && path[0] == v.hop && path[|path| - 1] == v.package;
      ClosedContainsVisits(g, visited, v.hop, path);
      assert Visit(v.package, v.hop) in visited && Visit(v.package, v.hop) == v;
    }
  }

  /** `reject_reachable_except_via`: refuses exactly when some first hop reaches a forbidden package that
      does not approve it, and names both. */
  method RejectReachableExceptVia(g: Graph, start: Package, forbidden: map<Package, set<Package>>) returns (found: Option<Visit>)
    ensures found.Some? ==> Violates(g, start, forbidden, found.value)
    ensures found.None? ==> forall v :: !Violates(g, start, forbidden, v)
  {
    hide Reaches, Universe, Visits;
    var pending, visited := Hops(Dependencies(g, start)), {};
    StartBridging(g, start, forbidden);
    while pending != []
      invariant Bridging(g, start, forbidden, visited, pending)
      decreases |Visits(g, start) - visited|, |pending|
    {
      var v := pending[0];
      if v in visited {
        pending := pending[1..];
      } else {
        if v.package in forbidden && v.hop !in forbidden[v.package] { return Some(v); }
        VisitThrough(g, start, forbidden, visited, pending);
        FewerUnvisited(Visits(g, start), visited, v);
        visited := visited + {v};
        pending := pending[1..] + Through(Dependencies(g, v.package), v.hop);
      }
    }
    NothingViolates(g, start, forbidden, visited);
    found := None;
  }

  // ---------------------------------------------------------------- the two policies agree

  /** With no approved bridge the second policy forbids exactly what the first one does. */
  lemma EmptyBridgesAgree(g: Graph, start: Package, forbidden: map<Package, set<Package>>)
    requires forall p :: p in forbidden ==> forbidden[p] == {}
    ensures (exists v :: Violates(g, start, forbidden, v)) <==>
            (exists p :: ReachesByDependency(g, start, p) && p in forbidden)
  {
    if v :| Violates(g, start, forbidden, v) {
      var path :| IsPath(g, path) && path[0] == v.hop && path[|path| - 1] == v.package;
      HopThenReaches(g, start, v.hop, path);
    }
    if p :| ReachesByDependency(g, start, p) && p in forbidden {
      FirstHop(g, start, p);
      var hop :| hop in Dependencies(g, start) && Reaches(g, hop, p);
      assert Violates(g, start, forbidden, Visit(p, hop));
    }
  }

  /** A bridge policy never refuses more than the plain one. */
  lemma BridgesOnlyRelax(g: Graph, start: Package, forbidden: map<Package, set<Package>>, v: Visit)
    requires Violates(g, start, forbidden, v)
    ensures ReachesByDependency(g, start, v.package) && v.package in forbidden
  {
    var path :| IsPath(g, path) && path[0] == v.hop && path[|path| - 1] == v.package;
    HopThenReaches(g, start, v.hop, path);
  }
}
