/** `check_routes` (pulp/floonoc_v2/floonoc_v2_routing.py): walks every NI-to-NI route and
    checks the channel dependency graph of the walks. */
module CheckRoutes {
  import opened Wrappers
  import opened Digraph
  import opened Topology
  import opened Walks
  import opened FindCycle

  type Route = seq<int>

  datatype RouteError =
    | BadNi(ni: int)
    | ReachesNi(src: int, dst: int, path: Route)
    | NoRoute(src: int, dst: int, path: Route)
    | NoLink(src: int, dst: int, path: Route)
    | Loop(src: int, dst: int, path: Route)
    | Deadlock(cycle: seq<Channel>)

  /** The ordered pairs of distinct NIs, in the order of the two nested loops. */
  function Pairs(nis: seq<int>, i: nat, j: nat): seq<(int, int)>
    requires i <= |nis| && j <= |nis| && (j > 0 ==> i < |nis|)
    decreases i, j
  {
    if j > 0 then Pairs(nis, i, j - 1) + if nis[i] != nis[j - 1] then [(nis[i], nis[j - 1])] else []
    else if i > 0 then Pairs(nis, i - 1, |nis|)
    else []
  }

  function AllPairs(nis: seq<int>): seq<(int, int)> {
    Pairs(nis, |nis|, 0)
  }

  lemma {:induction false} PairsComplete(nis: seq<int>, i: nat, j: nat, a: nat, b: nat)
    requires i <= |nis| && j <= |nis| && (j > 0 ==> i < |nis|) && a < |nis| && b < |nis| && nis[a] != nis[b]
    requires a < i || (a == i && b < j)
    ensures (nis[a], nis[b]) in Pairs(nis, i, j)
    decreases i, j
  {
    if j > 0 {
      if a < i || b < j - 1 {
        PairsComplete(nis, i, j - 1, a, b);
      }
    } else {
      PairsComplete(nis, i - 1, |nis|, a, b);
    }
  }

  lemma {:induction false} PairsSound(nis: seq<int>, i: nat, j: nat, k: nat)
    requires i <= |nis| && j <= |nis| && (j > 0 ==> i < |nis|) && k < |Pairs(nis, i, j)|
    ensures
      var (s, d) := Pairs(nis, i, j)[k];
      s in nis && d in nis && s != d
    decreases i, j
  {
    if j > 0 {
      if k < |Pairs(nis, i, j - 1)| {
        PairsSound(nis, i, j - 1, k);
      }
    } else if i > 0 {
      PairsSound(nis, i - 1, |nis|, k);
    }
  }

  /** Every ordered pair of distinct NIs is in the list, and nothing else. */
  lemma AllPairsExact(nis: seq<int>)
    ensures forall s, d :: (s, d) in AllPairs(nis) <==> s in nis && d in nis && s != d
  {
    forall s, d ensures (s, d) in AllPairs(nis) <==> s in nis && d in nis && s != d {
      if s in nis && d in nis && s != d {
        var a :| 0 <= a < |nis| && nis[a] == s;
        var b :| 0 <= b < |nis| && nis[b] == d;
        PairsComplete(nis, |nis|, 0, a, b);
      }
      if (s, d) in AllPairs(nis) {
        var k :| 0 <= k < |AllPairs(nis)| && AllPairs(nis)[k] == (s, d);
        PairsSound(nis, |nis|, 0, k);
      }
    }
  }

  /** `routes` holds one delivered walk per pair, in order. */
  ghost predicate RoutesMatch(net: Network, tables: Tables, pairs: seq<(int, int)>, routes: seq<Route>)
    requires net.Valid()
  {
    && |routes| == |pairs|
    && forall k :: 0 <= k < |routes| ==> Delivered(net, tables, pairs[k].0, pairs[k].1, routes[k])
  }

  /** Every packet between two different NIs arrives. */
  ghost predicate AllDeliver(net: Network, tables: Tables)
    requires net.Valid()
  {
    forall s, d :: (s, d) in AllPairs(net.nis) ==> exists p :: Delivered(net, tables, s, d, p)
  }

  /** A packet of some route that holds channel `a` may wait for channel `b`. */
  ghost predicate Dep(routes: seq<Route>, a: Channel, b: Channel) {
    exists k, i :: 0 <= k < |routes| && DepAt(routes[k], i, a, b)
  }

  predicate DepAt(route: Route, i: int, a: Channel, b: Channel) {
    0 <= i < |route| - 2 && a == (route[i], route[i + 1]) && b == (route[i + 1], route[i + 2])
  }

  /** `deps.setdefault(a, set()).add(b)` */
  function AddDep(g: Graph<Channel>, a: Channel, b: Channel): Graph<Channel> {
    g[a := (if a in g then g[a] else {}) + {b}]
  }

  function DepsOfRoute(g: Graph<Channel>, route: Route, k: nat): Graph<Channel>
    requires k == 0 || k + 2 <= |route|
  {
    if k == 0 then g
    else AddDep(DepsOfRoute(g, route, k - 1), (route[k - 1], route[k]), (route[k], route[k + 1]))
  }

  /** The channel dependency graph of a list of routes. */
  function DepsOf(routes: seq<Route>): Graph<Channel> {
    if routes == [] then map[]
    else
      var n := |routes| - 1;
      DepsOfRoute(DepsOf(routes[..n]), routes[n], if |routes[n]| < 2 then 0 else |routes[n]| - 2)
  }

  lemma {:induction false} DepsOfRouteExact(g: Graph<Channel>, route: Route, k: nat, a: Channel, b: Channel)
    requires k == 0 || k + 2 <= |route|
    ensures Edge(DepsOfRoute(g, route, k), a, b) <==> Edge(g, a, b) || exists i :: i < k && DepAt(route, i, a, b)
  {
    if k > 0 {
      DepsOfRouteExact(g, route, k - 1, a, b);
      var x, y := (route[k - 1], route[k]), (route[k], route[k + 1]);
      assert DepAt(route, k - 1, x, y);
      if a == x && b == y {
        assert DepAt(route, k - 1, a, b);
      }
      if i :| i < k && DepAt(route, i, a, b) {
        assert i == k - 1 || i < k - 1;
      }
    }
  }

  /** The graph built by insertion is the dependency relation of the routes. */
  lemma {:induction false} DepsExact(routes: seq<Route>, a: Channel, b: Channel)
    ensures Edge(DepsOf(routes), a, b) <==> Dep(routes, a, b)
  {
    if routes != [] {
      var n := |routes| - 1;
      var k := if |routes[n]| < 2 then 0 else |routes[n]| - 2;
      DepsExact(routes[..n], a, b);
      DepsOfRouteExact(DepsOf(routes[..n]), routes[n], k, a, b);
      if Dep(routes[..n], a, b) {
        var j, i :| 0 <= j < n && DepAt(routes[..n][j], i, a, b);
        assert routes[j] == routes[..n][j];
      }
      if Dep(routes, a, b) {
        var j, i :| 0 <= j < |routes| && DepAt(routes[j], i, a, b);
        assert j < n ==> routes[j] == routes[..n][j];
      }
    }
  }

  /** Two lists of delivered walks for the same pairs are the same list. */
  lemma RoutesUnique(net: Network, tables: Tables, pairs: seq<(int, int)>, r1: seq<Route>, r2: seq<Route>)
    requires net.Valid() && RoutesMatch(net, tables, pairs, r1) && RoutesMatch(net, tables, pairs, r2)
    ensures r1 == r2
  {
    forall k | 0 <= k < |r1| ensures r1[k] == r2[k] {
      DeliveredIsUnique(net, tables, pairs[k].0, pairs[k].1, r1[k], r2[k]);
    }
  }

  /** The packet's walk has come to the last node of `p`, which is not its destination. */
  ghost predicate StopsAt(net: Network, tables: Tables, src: int, dst: int, p: Route)
    requires net.Valid()
  {
    IsWalk(net, tables, src, dst, p) && p[|p| - 1] != dst
  }

  ghost predicate HasDependencyCycle(net: Network, tables: Tables, c: seq<Channel>)
    requires net.Valid()
  {
    exists routes :: RoutesMatch(net, tables, AllPairs(net.nis), routes) && IsCycle(DepsOf(routes), c)
  }

  ghost predicate HopMissing(net: Network, tables: Tables, u: int, dst: int)
    requires net.Valid()
  {
    net.IsRouter(u) && !HasHop(tables, u, dst)
  }

  ghost predicate HopWithoutLink(net: Network, tables: Tables, u: int, dst: int)
    requires net.Valid()
  {
    net.IsRouter(u) && HasHop(tables, u, dst) && tables[u][dst] !in net.adj[u]
  }

  /** What each error reports about the topology and the tables. */
  ghost predicate ErrorIsReal(net: Network, tables: Tables, e: RouteError)
    requires net.Valid()
  {
    match e
    case BadNi(ni) => net.IsNi(ni) && |net.adj[ni]| != 1
    case ReachesNi(s, d, p) => StopsAt(net, tables, s, d, p) && net.IsNi(p[|p| - 1])
    case NoRoute(s, d, p) => StopsAt(net, tables, s, d, p) && HopMissing(net, tables, p[|p| - 1], d)
    case NoLink(s, d, p) => StopsAt(net, tables, s, d, p) && HopWithoutLink(net, tables, p[|p| - 1], d)
    case Loop(s, d, p) => StopsAt(net, tables, s, d, p) && !Distinct(p)
    case Deadlock(c) => HasDependencyCycle(net, tables, c)
  }

  /** A walk that has stopped short of `dst` and cannot go on is never delivered. */
  lemma StuckNeverDelivers(net: Network, tables: Tables, src: int, dst: int, p: seq<int>)
    requires net.Valid() && IsWalk(net, tables, src, dst, p) && p[|p| - 1] != dst
    requires
      var u := p[|p| - 1];
      !(net.IsRouter(u) && HasHop(tables, u, dst) && tables[u][dst] in net.adj[u])
    ensures forall q :: !Delivered(net, tables, src, dst, q)
  {
    forall q | Delivered(net, tables, src, dst, q) ensures false {
      NoStop(net, tables, src, dst, p, q);
    }
  }

  /** A packet of an NI without exactly one link never enters the network. */
  lemma NoEntryNeverDelivers(net: Network, tables: Tables, src: int, dst: int)
    requires net.Valid() && net.IsNi(src) && |net.adj[src]| != 1
    ensures forall q :: !Delivered(net, tables, src, dst, q)
  {
    forall q: Route | |q| >= 2 && net.adj[src] == [q[1]] ensures false {
    }
  }

  /** The inner `while`: one packet's walk. */
  method WalkRoute(net: Network, tables: Tables, src: int, dst: int) returns (r: Result<Route, RouteError>)
    requires net.Valid() && net.IsNi(src) && net.IsNi(dst) && src != dst
    ensures r.Ok? ==> Delivered(net, tables, src, dst, r.value) && Distinct(r.value)
    ensures r.Ok? <==> exists p :: Delivered(net, tables, src, dst, p)
    ensures r.Err? ==> ErrorIsReal(net, tables, r.error) && !r.error.Deadlock?
  {
    var first := net.NiRouter(src);
    if first.Err? {
      NoEntryNeverDelivers(net, tables, src, dst);
      return Err(BadNi(src));
    }
    var path := [src, first.value];
    NiRouterIsRouter(net, src);
    while path[|path| - 1] != dst
      invariant IsWalk(net, tables, src, dst, path)
      decreases |net.adj| + 3 - |path|
    {
      var curr := path[|path| - 1];
      WalkInNetwork(net, tables, src, dst, path);
      if !net.IsRouter(curr) {
        StuckNeverDelivers(net, tables, src, dst, path);
        return Err(ReachesNi(src, dst, path));
      }
      if !HasHop(tables, curr, dst) {
        StuckNeverDelivers(net, tables, src, dst, path);
        return Err(NoRoute(src, dst, path));
      }
      var nxt := tables[curr][dst];
      if nxt !in net.adj[curr] {
        StuckNeverDelivers(net, tables, src, dst, path);
        return Err(NoLink(src, dst, path));
      }
      if |path| > |net.adj| + 1 {
        GuardFindsLoop(net, tables, src, dst, path);
        return Err(Loop(src, dst, path));
      }
      path := path + [nxt];
    }
    assert Delivered(net, tables, src, dst, path);
    DeliveredIsSimple(net, tables, src, dst, path);
    r := Ok(path);
  }

  /** The last inner loop: the dependencies of one more route. */
  method AddRouteDeps(ghost before: seq<Route>, path: Route, keys: seq<Channel>, deps: Graph<Channel>)
    returns (keys': seq<Channel>, deps': Graph<Channel>)
    requires |path| >= 2 && deps == DepsOf(before) && forall k :: k in keys <==> k in deps
    ensures deps' == DepsOf(before + [path]) && forall k :: k in keys' <==> k in deps'
  {
    keys', deps' := keys, deps;
    assert (before + [path])[..|before|] == before;
    for k := 0 to |path| - 2
      invariant deps' == DepsOfRoute(DepsOf(before), path, k)
      invariant forall c :: c in keys' <==> c in deps'
    {
      var a, b := (path[k], path[k + 1]), (path[k + 1], path[k + 2]);
      if a !in deps' {
        keys' := keys' + [a];
      }
      deps' := AddDep(deps', a, b);
    }
  }

  /** What the outer loops have built for the first `pairs`. */
  ghost predicate Built(net: Network, tables: Tables, pairs: seq<(int, int)>, routes: seq<Route>,
                        keys: seq<Channel>, deps: Graph<Channel>)
    requires net.Valid()
  {
    && RoutesMatch(net, tables, pairs, routes)
    && (forall k :: 0 <= k < |routes| ==> Distinct(routes[k]))
    && deps == DepsOf(routes)
    && forall k :: k in keys <==> k in deps
  }

  lemma RoutesMatchExtend(net: Network, tables: Tables, pairs: seq<(int, int)>, routes: seq<Route>,
                          pair: (int, int), route: Route)
    requires net.Valid() && RoutesMatch(net, tables, pairs, routes)
    requires Delivered(net, tables, pair.0, pair.1, route)
    ensures RoutesMatch(net, tables, pairs + [pair], routes + [route])
  {
  }

  lemma OneUndelivered(net: Network, tables: Tables, src: int, dst: int)
    requires net.Valid() && net.IsNi(src) && net.IsNi(dst) && src != dst
    requires !exists p :: Delivered(net, tables, src, dst, p)
    ensures !AllDeliver(net, tables)
  {
    AllPairsExact(net.nis);
    assert (src, dst) in AllPairs(net.nis);
  }

  /** The loop over destinations, for source NI number `i`. */
  method WalkFrom(net: Network, tables: Tables, i: nat, routes: seq<Route>, keys: seq<Channel>, deps: Graph<Channel>)
    returns (e: Option<RouteError>, routes': seq<Route>, keys': seq<Channel>, deps': Graph<Channel>)
    requires net.Valid() && i < |net.nis|
    requires Built(net, tables, Pairs(net.nis, i, 0), routes, keys, deps)
    ensures e.None? ==> Built(net, tables, Pairs(net.nis, i, |net.nis|), routes', keys', deps')
    ensures e.Some? ==> !AllDeliver(net, tables)
    ensures e.Some? ==> ErrorIsReal(net, tables, e.value) && !e.value.Deadlock?
  {
    routes', keys', deps' := routes, keys, deps;
    for j := 0 to |net.nis|
      invariant Built(net, tables, Pairs(net.nis, i, j), routes', keys', deps')
    {
      var src, dst := net.nis[i], net.nis[j];
      if src != dst {
        var walk := WalkRoute(net, tables, src, dst);
        if walk.Err? {
          OneUndelivered(net, tables, src, dst);
          e := Some(walk.error);
          return;
        }
        keys', deps' := AddRouteDeps(routes', walk.value, keys', deps');
        RoutesMatchExtend(net, tables, Pairs(net.nis, i, j), routes', (src, dst), walk.value);
        routes' := routes' + [walk.value];
      }
    }
    e := None;
  }

  /** The loop over sources: all routes and their dependencies, unless one packet is not delivered. */
  method WalkAll(net: Network, tables: Tables)
    returns (r: Result<seq<Route>, RouteError>, keys: seq<Channel>, deps: Graph<Channel>)
    requires net.Valid()
    ensures r.Ok? ==> Built(net, tables, AllPairs(net.nis), r.value, keys, deps)
    ensures r.Ok? <==> AllDeliver(net, tables)
    ensures r.Err? ==> ErrorIsReal(net, tables, r.error) && !r.error.Deadlock?
  {
    var routes: seq<Route> := [];
    deps, keys := map[], [];
    for i := 0 to |net.nis|
      invariant Built(net, tables, Pairs(net.nis, i, 0), routes, keys, deps)
    {
      var e;
      e, routes, keys, deps := WalkFrom(net, tables, i, routes, keys, deps);
      if e.Some? {
        return Err(e.value), keys, deps;
      }
    }
    AllMatchedDeliver(net, tables, routes);
    r := Ok(routes);
  }

  lemma AllMatchedDeliver(net: Network, tables: Tables, routes: seq<Route>)
    requires net.Valid() && RoutesMatch(net, tables, AllPairs(net.nis), routes)
    ensures AllDeliver(net, tables)
  {
    var pairs := AllPairs(net.nis);
    forall s, d | (s, d) in pairs ensures exists p :: Delivered(net, tables, s, d, p) {
      var k :| 0 <= k < |pairs| && pairs[k] == (s, d);
      assert Delivered(net, tables, s, d, routes[k]);
    }
  }

  lemma {:induction false} RoutesExist(net: Network, tables: Tables, pairs: seq<(int, int)>) returns (routes: seq<Route>)
    requires net.Valid() && forall s, d :: (s, d) in pairs ==> exists p :: Delivered(net, tables, s, d, p)
    ensures RoutesMatch(net, tables, pairs, routes)
    decreases |pairs|
  {
    if pairs == [] {
      routes := [];
    } else {
      var init, last := pairs[..|pairs| - 1], pairs[|pairs| - 1];
      routes := RoutesExist(net, tables, init);
      assert (last.0, last.1) in pairs;
      var p :| Delivered(net, tables, last.0, last.1, p);
      RoutesMatchExtend(net, tables, init, routes, last, p);
      assert pairs == init + [last];
      routes := routes + [p];
    }
  }

  /** The routes returned are all the delivered walks between NIs. */
  lemma RoutesAreWalks(net: Network, tables: Tables, routes: seq<Route>, p: Route)
    requires net.Valid() && RoutesMatch(net, tables, AllPairs(net.nis), routes)
    ensures p in routes <==> exists s, d :: net.IsNi(d) && Delivered(net, tables, s, d, p)
  {
    var pairs := AllPairs(net.nis);
    AllPairsExact(net.nis);
    if p in routes {
      var k :| 0 <= k < |routes| && routes[k] == p;
      assert (pairs[k].0, pairs[k].1) in pairs;
    }
    if s, d :| net.IsNi(d) && Delivered(net, tables, s, d, p) {
      var k :| 0 <= k < |pairs| && pairs[k] == (s, d);
      DeliveredIsUnique(net, tables, s, d, p, routes[k]);
    }
  }

  /** No route can close a dependency cycle. */
  ghost predicate DeadlockFree(net: Network, tables: Tables)
    requires net.Valid()
  {
    forall routes :: RoutesMatch(net, tables, AllPairs(net.nis), routes) ==> Acyclic(DepsOf(routes))
  }

  lemma DeadlockFreeByRoutes(net: Network, tables: Tables, routes: seq<Route>)
    requires net.Valid() && RoutesMatch(net, tables, AllPairs(net.nis), routes)
    ensures DeadlockFree(net, tables) <==> Acyclic(DepsOf(routes))
  {
    forall other | RoutesMatch(net, tables, AllPairs(net.nis), other) ensures other == routes {
      RoutesUnique(net, tables, AllPairs(net.nis), other, routes);
    }
  }

  /** `check_routes`: accepts exactly the tables that deliver every packet and, unless
      `allowDeadlock`, whose channel dependency graph is acyclic. */
  method CheckRoutes(net: Network, tables: Tables, allowDeadlock: bool) returns (r: Result<seq<Route>, RouteError>)
    requires net.Valid()
    ensures r.Ok? ==> RoutesMatch(net, tables, AllPairs(net.nis), r.value)
    ensures r.Ok? ==> forall k :: 0 <= k < |r.value| ==> Distinct(r.value[k])
    ensures r.Ok? && !allowDeadlock ==> Acyclic(DepsOf(r.value))
    ensures r.Ok? <==> AllDeliver(net, tables) && (allowDeadlock || DeadlockFree(net, tables))
    ensures r.Err? ==> ErrorIsReal(net, tables, r.error) && (r.error.Deadlock? <==> AllDeliver(net, tables))
  {
    var walks, keys, deps := WalkAll(net, tables);
    if walks.Err? {
      return walks;
    }
    DeadlockFreeByRoutes(net, tables, walks.value);
    var cycle, _ := FindCycle.FindCycle(keys, deps);
    if cycle.Some? && !allowDeadlock {
      return Err(Deadlock(cycle.value));
    }
    r := walks;
  }
}
