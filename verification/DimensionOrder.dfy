/** `dimension_order` (pulp/floonoc_v2/floonoc_v2_routing.py): correct one coordinate axis after
    the other. Whenever it returns, routes are minimal and deadlock free. */
module DimensionOrder {
  import opened Wrappers
  import opened Digraph
  import opened Topology
  import opened Walks
  import opened FindCycle
  import opened CheckRoutes
  import opened RoutingTables

  type Coord = seq<int>

  /** Axes are indices into 'xyz'. */
  predicate AxesOk(axes: seq<int>) {
    forall k :: 0 <= k < |axes| ==> 0 <= axes[k] < 3
  }

  /** The two positions agree on the first `k` axes of the order, all of which they have. */
  predicate AgreeUpTo(axes: seq<int>, s: Coord, d: Coord, k: int)
    requires AxesOk(axes) && k <= |axes|
  {
    forall j :: 0 <= j < k ==> axes[j] < |s| && axes[j] < |d| && s[axes[j]] == d[axes[j]]
  }

  /** `n` is one step from `s` towards `d` along the first axis of the order on which they differ,
      the `k`-th one. */
  predicate StepsAt(axes: seq<int>, s: Coord, d: Coord, n: Coord, k: int)
    requires AxesOk(axes)
  {
    && 0 <= k < |axes| && AgreeUpTo(axes, s, d, k)
    && axes[k] < |s| && axes[k] < |d| && s[axes[k]] != d[axes[k]]
    && n == s[axes[k] := s[axes[k]] + if d[axes[k]] > s[axes[k]] then 1 else -1]
  }

  /** A position lacks an axis that comparing the two needs. */
  ghost predicate AxisMissing(axes: seq<int>, s: Coord, d: Coord)
    requires AxesOk(axes)
  {
    exists k :: 0 <= k < |axes| && AgreeUpTo(axes, s, d, k) && (axes[k] >= |s| || axes[k] >= |d|)
  }

  ghost predicate NextCoord(axes: seq<int>, s: Coord, d: Coord, n: Coord)
    requires AxesOk(axes)
  {
    if AgreeUpTo(axes, s, d, |axes|) then n == s else exists k :: StepsAt(axes, s, d, n, k)
  }

  /** The loop over the axes; fails when a position has no such axis. */
  method NextPosition(axes: seq<int>, s: Coord, d: Coord) returns (n: Option<Coord>)
    requires AxesOk(axes)
    ensures n.Some? ==> NextCoord(axes, s, d, n.value)
    ensures n.None? ==> AxisMissing(axes, s, d)
  {
    for k := 0 to |axes|
      invariant AgreeUpTo(axes, s, d, k)
    {
      var a := axes[k];
      if a >= |s| || a >= |d| {
        return None;
      }
      if s[a] != d[a] {
        var next := s[a := s[a] + if d[a] > s[a] then 1 else -1];
        assert StepsAt(axes, s, d, next, k);
        return Some(next);
      }
    }
    n := Some(s);
  }

  lemma NextIsUnique(axes: seq<int>, s: Coord, d: Coord, n: Coord, m: Coord)
    requires AxesOk(axes) && NextCoord(axes, s, d, n) && NextCoord(axes, s, d, m)
    ensures n == m
    ensures !AxisMissing(axes, s, d)
  {
    if !AgreeUpTo(axes, s, d, |axes|) {
      var i :| StepsAt(axes, s, d, n, i);
      var j :| StepsAt(axes, s, d, m, j);
      assert i == j;
    }
  }

  /** Every router is at the position recorded for it, and every position names a router there. */
  ghost predicate Located(net: Network, at: map<Coord, int>)
    requires net.Valid()
  {
    && (forall u :: net.IsRouter(u) ==> u in net.coords && net.coords[u] in at)
    && forall c :: c in at ==> net.IsRouter(at[c]) && at[c] in net.coords && net.coords[at[c]] == c
  }

  /** The router one step from `u` towards `t` exists and is linked to `u`. */
  ghost predicate StepExists(net: Network, axes: seq<int>, at: map<Coord, int>, u: int, t: int, v: int)
    requires net.Valid() && AxesOk(axes) && Located(net, at) && net.IsRouter(u) && net.IsRouter(t)
  {
    && v in net.RouterAdj(u) && v in net.coords
    && NextCoord(axes, net.coords[u], net.coords[t], net.coords[v]) && at[net.coords[v]] == v
  }

  ghost predicate DimensionHops(net: Network, axes: seq<int>, at: map<Coord, int>, first: FirstHops)
    requires net.Valid() && AxesOk(axes) && Located(net, at)
  {
    forall u, t {:trigger HopIsStep(net, axes, at, first, u, t)} ::
      net.IsRouter(u) && net.IsRouter(t) && u != t ==> HopIsStep(net, axes, at, first, u, t)
  }

  ghost predicate HopIsStep(net: Network, axes: seq<int>, at: map<Coord, int>, first: FirstHops, u: int, t: int)
    requires net.Valid() && AxesOk(axes) && Located(net, at) && net.IsRouter(u) && net.IsRouter(t)
  {
    u in first && t in first[u] && StepExists(net, axes, at, u, t, first[u][t])
  }

  /** The router recorded for a place would have to be linked to itself to send a packet nowhere. */
  lemma RecordedMoves(net: Network, axes: seq<int>, at: map<Coord, int>, first: FirstHops, w: int, t: int)
    requires net.Valid() && AxesOk(axes) && Located(net, at) && DimensionHops(net, axes, at, first)
    requires net.IsRouter(w) && net.IsRouter(t) && w != t && at[net.coords[w]] == w
    ensures !AgreeUpTo(axes, net.coords[w], net.coords[t], |axes|)
  {
    assert HopIsStep(net, axes, at, first, w, t);
  }

  /** Two routers in one place, or two that differ on no listed axis, are refused. */
  lemma AxesSeparate(net: Network, axes: seq<int>, at: map<Coord, int>, first: FirstHops, u: int, t: int)
    requires net.Valid() && AxesOk(axes) && Located(net, at) && DimensionHops(net, axes, at, first)
    requires net.IsRouter(u) && net.IsRouter(t) && u != t
    ensures !AgreeUpTo(axes, net.coords[u], net.coords[t], |axes|)
  {
    var w := at[net.coords[u]];
    RecordedMoves(net, axes, at, first, w, if w != t then t else u);
  }

  /** Each hop is a real step. */
  lemma HopSteps(net: Network, axes: seq<int>, at: map<Coord, int>, first: FirstHops, u: int, t: int) returns (k: int)
    requires net.Valid() && AxesOk(axes) && Located(net, at) && DimensionHops(net, axes, at, first)
    requires net.IsRouter(u) && net.IsRouter(t) && u != t
    ensures HopIsStep(net, axes, at, first, u, t) && net.IsRouter(first[u][t])
    ensures StepsAt(axes, net.coords[u], net.coords[t], net.coords[first[u][t]], k)
  {
    AxesSeparate(net, axes, at, first, u, t);
    assert HopIsStep(net, axes, at, first, u, t);
    k :| StepsAt(axes, net.coords[u], net.coords[t], net.coords[first[u][t]], k);
  }

  function Gap(axes: seq<int>, s: Coord, d: Coord, a: nat): nat {
    if a !in axes || a >= |s| || a >= |d| then 0
    else if s[a] > d[a] then s[a] - d[a] else d[a] - s[a]
  }

  /** The Manhattan distance over the listed axes. */
  function Manhattan(axes: seq<int>, s: Coord, d: Coord): nat {
    Gap(axes, s, d, 0) + Gap(axes, s, d, 1) + Gap(axes, s, d, 2)
  }

  lemma StepIsOneCloser(axes: seq<int>, s: Coord, d: Coord, n: Coord, k: int)
    requires AxesOk(axes) && StepsAt(axes, s, d, n, k)
    ensures Manhattan(axes, n, d) == Manhattan(axes, s, d) - 1
  {
    var a := axes[k];
    assert a in axes && (a == 0 || a == 1 || a == 2);
    assert forall b: nat :: b != a ==> Gap(axes, n, d, b) == Gap(axes, s, d, b);
  }

  function DistanceTo(net: Network, axes: seq<int>, t: int): int -> nat {
    u => if u in net.coords && t in net.coords then Manhattan(axes, net.coords[u], net.coords[t]) else 0
  }

  lemma DimensionDescends(net: Network, axes: seq<int>, at: map<Coord, int>, first: FirstHops, tables: Tables, ni: int)
    requires net.Valid() && AxesOk(axes) && Located(net, at) && DimensionHops(net, axes, at, first)
    requires TablesOf(net, first, tables) && net.IsNi(ni)
    ensures DescendsByOne(net, tables, ni, DistanceTo(net, axes, Target(net, ni)))
  {
    var t := Target(net, ni);
    var measure := DistanceTo(net, axes, t);
    NiRouterIsRouter(net, ni);
    forall u | net.IsRouter(u) && u != t
      ensures
        && u in first && t in first[u] && first[u][t] in net.RouterAdj(u)
        && measure(first[u][t]) == measure(u) - 1
    {
      var k := HopSteps(net, axes, at, first, u, t);
      assert StepExists(net, axes, at, u, t, first[u][t]);
      StepIsOneCloser(axes, net.coords[u], net.coords[t], net.coords[first[u][t]], k);
    }
    TablesDescend(net, first, tables, ni, measure);
    forall u | net.IsRouter(u)
      ensures if tables[u][ni] == ni then measure(u) == 0 else measure(tables[u][ni]) == measure(u) - 1
    {
      assert Entry(net, first, tables[u], u, ni);
    }
  }

  lemma HopsFromFirst(net: Network, tables: Tables, src: int, dst: int, measure: int -> nat, p: Route)
    requires net.Valid() && net.IsNi(src) && net.IsNi(dst) && DescendsByOne(net, tables, dst, measure)
    requires Delivered(net, tables, src, dst, p) && net.NiRouter(src).Ok?
    ensures |p| - 3 == measure(Target(net, src))
  {
    NiRouterIsRouter(net, src);
    HopsLeft(net, tables, src, dst, measure, p, 1);
  }

  /** A route takes as many router hops as the Manhattan distance between its end routers. */
  lemma RoutesAreMinimal(net: Network, axes: seq<int>, at: map<Coord, int>, first: FirstHops, tables: Tables,
                         src: int, dst: int, p: Route)
    requires net.Valid() && AxesOk(axes) && Located(net, at) && DimensionHops(net, axes, at, first)
    requires TablesOf(net, first, tables) && net.IsNi(src) && net.IsNi(dst) && Delivered(net, tables, src, dst, p)
    ensures Target(net, src) in net.coords && Target(net, dst) in net.coords
    ensures |p| - 3 == Manhattan(axes, net.coords[Target(net, src)], net.coords[Target(net, dst)])
  {
    NiRouterIsRouter(net, src);
    NiRouterIsRouter(net, dst);
    DimensionDescends(net, axes, at, first, tables, dst);
    HopsFromFirst(net, tables, src, dst, DistanceTo(net, axes, Target(net, dst)), p);
  }

  /** Position in the order of the first axis on which two positions differ. */
  function AxisOf(axes: seq<int>, s: Coord, n: Coord): nat {
    if axes == [] || axes[0] < 0 || axes[0] >= |s| || axes[0] >= |n| || s[axes[0]] != n[axes[0]] then 0
    else 1 + AxisOf(axes[1..], s, n)
  }

  lemma {:induction false} AxisOfStep(axes: seq<int>, s: Coord, d: Coord, n: Coord, k: int)
    requires AxesOk(axes) && StepsAt(axes, s, d, n, k)
    ensures AxisOf(axes, s, n) == k
    decreases |axes|
  {
    if k > 0 {
      AxisOfStep(axes[1..], s, d, n, k - 1);
    }
  }

  /** Injection channels first; then the axes in order, each in the direction of travel; then ejection. */
  function AxisRank(net: Network, axes: seq<int>, u: int, v: int): (int, int, int) {
    if !net.IsRouter(u) || u !in net.coords then (2, 0, 0)
    else if !net.IsRouter(v) || v !in net.coords then (0, 0, 0)
    else
      var s, n := net.coords[u], net.coords[v];
      var k: int := AxisOf(axes, s, n);
      if k < |axes| && 0 <= axes[k] < |s| && axes[k] < |n|
      then (1, -k, if n[axes[k]] > s[axes[k]] then -s[axes[k]] else s[axes[k]])
      else (1, 0, 0)
  }

  /** Two consecutive router hops of a route. */
  ghost predicate TwoHops(net: Network, axes: seq<int>, u: int, v: int, w: int, t: int, k: int, j: int)
    requires AxesOk(axes)
  {
    && u in net.coords && v in net.coords && w in net.coords && t in net.coords
    && StepsAt(axes, net.coords[u], net.coords[t], net.coords[v], k)
    && StepsAt(axes, net.coords[v], net.coords[t], net.coords[w], j)
  }

  lemma RouteTwoHops(net: Network, axes: seq<int>, at: map<Coord, int>, first: FirstHops, tables: Tables,
                     src: int, dst: int, p: Route, i: nat) returns (k: int, j: int)
    requires net.Valid() && AxesOk(axes) && Located(net, at) && DimensionHops(net, axes, at, first)
    requires TablesOf(net, first, tables) && net.IsNi(dst) && Delivered(net, tables, src, dst, p)
    requires 1 <= i < |p| - 3
    ensures net.IsRouter(p[i]) && net.IsRouter(p[i + 1]) && net.IsRouter(p[i + 2])
    ensures TwoHops(net, axes, p[i], p[i + 1], p[i + 2], Target(net, dst), k, j)
  {
    var t := Target(net, dst);
    NiRouterIsRouter(net, dst);
    assert Hop(net, tables, dst, p[i], p[i + 1]) && Hop(net, tables, dst, p[i + 1], p[i + 2]);
    assert Hop(net, tables, dst, p[i + 2], p[i + 3]);
    assert Entry(net, first, tables[p[i]], p[i], dst) && Entry(net, first, tables[p[i + 1]], p[i + 1], dst);
    assert p[i + 1] != dst && p[i + 2] != dst;
    k := HopSteps(net, axes, at, first, p[i], t);
    j := HopSteps(net, axes, at, first, p[i + 1], t);
  }

  lemma TwoHopsRank(net: Network, axes: seq<int>, u: int, v: int, w: int, t: int, k: int, j: int)
    requires AxesOk(axes) && TwoHops(net, axes, u, v, w, t, k, j)
    requires net.IsRouter(u) && net.IsRouter(v) && net.IsRouter(w)
    ensures LexLess(AxisRank(net, axes, v, w), AxisRank(net, axes, u, v))
    ensures AxisOf(axes, net.coords[u], net.coords[v]) <= AxisOf(axes, net.coords[v], net.coords[w])
  {
    var s, n, m, d := net.coords[u], net.coords[v], net.coords[w], net.coords[t];
    AxisOfStep(axes, s, d, n, k);
    AxisOfStep(axes, n, d, m, j);
  }

  /** A route corrects the axes in the given order. */
  lemma {:induction false} AxesInOrder(net: Network, axes: seq<int>, at: map<Coord, int>, first: FirstHops,
                                       tables: Tables, src: int, dst: int, p: Route, i: nat, j: nat)
    requires net.Valid() && AxesOk(axes) && Located(net, at) && DimensionHops(net, axes, at, first)
    requires TablesOf(net, first, tables) && net.IsNi(dst) && Delivered(net, tables, src, dst, p)
    requires 1 <= i < j < |p| - 2
    ensures p[i] in net.coords && p[i + 1] in net.coords && p[j] in net.coords && p[j + 1] in net.coords
    ensures AxisOf(axes, net.coords[p[i]], net.coords[p[i + 1]]) <= AxisOf(axes, net.coords[p[j]], net.coords[p[j + 1]])
  {
    var a, b := RouteTwoHops(net, axes, at, first, tables, src, dst, p, j - 1);
    TwoHopsRank(net, axes, p[j - 1], p[j], p[j + 1], Target(net, dst), a, b);
    if i < j - 1 {
      AxesInOrder(net, axes, at, first, tables, src, dst, p, i, j - 1);
    }
  }

  /** Injection has the greatest rank, and ejection the least. */
  lemma EndRanks(net: Network, axes: seq<int>, u: int, v: int, w: int)
    requires net.Valid() && net.IsRouter(v) && v in net.coords
    ensures net.IsNi(u) ==> LexLess(AxisRank(net, axes, v, w), AxisRank(net, axes, u, v))
    ensures net.IsRouter(u) && u in net.coords && net.IsNi(w) ==> LexLess(AxisRank(net, axes, v, w), AxisRank(net, axes, u, v))
  {
  }

  lemma RouteRank(net: Network, axes: seq<int>, at: map<Coord, int>, first: FirstHops, tables: Tables,
                  src: int, dst: int, p: Route, i: int)
    requires net.Valid() && AxesOk(axes) && Located(net, at) && DimensionHops(net, axes, at, first)
    requires TablesOf(net, first, tables) && net.IsNi(dst) && Delivered(net, tables, src, dst, p) && 0 <= i < |p| - 2
    ensures LexLess(AxisRank(net, axes, p[i + 1], p[i + 2]), AxisRank(net, axes, p[i], p[i + 1]))
  {
    assert Hop(net, tables, dst, p[i + 1], p[i + 2]);
    if i == 0 || i == |p| - 3 {
      if i > 0 {
        assert Hop(net, tables, dst, p[i], p[i + 1]);
      }
      EndRanks(net, axes, p[i], p[i + 1], p[i + 2]);
    } else {
      var k, j := RouteTwoHops(net, axes, at, first, tables, src, dst, p, i);
      TwoHopsRank(net, axes, p[i], p[i + 1], p[i + 2], Target(net, dst), k, j);
    }
  }

  /** Dimension-order routes never close a dependency cycle. */
  lemma DimensionDeadlockFree(net: Network, axes: seq<int>, at: map<Coord, int>, first: FirstHops, tables: Tables)
    requires net.Valid() && AxesOk(axes) && Located(net, at) && DimensionHops(net, axes, at, first)
    requires TablesOf(net, first, tables)
    ensures DeadlockFree(net, tables)
  {
    var rank := (c: (int, int)) => AxisRank(net, axes, c.0, c.1);
    var pairs := AllPairs(net.nis);
    AllPairsExact(net.nis);
    forall routes | RoutesMatch(net, tables, pairs, routes) ensures Acyclic(DepsOf(routes)) {
      forall a, b | Edge(DepsOf(routes), a, b) ensures LexLess(rank(b), rank(a)) {
        DepsExact(routes, a, b);
        var k, i :| 0 <= k < |routes| && DepAt(routes[k], i, a, b);
        assert pairs[k] in pairs;
        RouteRank(net, axes, at, first, tables, pairs[k].0, pairs[k].1, routes[k], i);
      }
      LexRankedIsAcyclic(DepsOf(routes), rank);
    }
  }

  lemma DimensionDelivers(net: Network, axes: seq<int>, at: map<Coord, int>, first: FirstHops, tables: Tables)
    requires net.Valid() && AxesOk(axes) && Located(net, at) && DimensionHops(net, axes, at, first)
    requires TablesOf(net, first, tables)
    ensures AllDeliver(net, tables)
  {
    AllPairsExact(net.nis);
    forall s, d | (s, d) in AllPairs(net.nis) ensures exists p :: Delivered(net, tables, s, d, p) {
      DimensionDescends(net, axes, at, first, tables, d);
      var p := DeliverOne(net, tables, s, d, DistanceTo(net, axes, Target(net, d)));
    }
  }

  method LocateRouters(net: Network) returns (r: Result<map<Coord, int>, GenError>)
    requires net.Valid()
    ensures r.Ok? ==> Located(net, r.value)
    ensures r.Err? ==> exists u :: net.IsRouter(u) && u !in net.coords
  {
    var at := map[];
    for i := 0 to |net.routers|
      invariant forall k :: 0 <= k < i ==> net.routers[k] in net.coords && net.coords[net.routers[k]] in at
      invariant forall c :: c in at ==> net.IsRouter(at[c]) && at[c] in net.coords && net.coords[at[c]] == c
    {
      var u := net.routers[i];
      if u !in net.coords {
        return Err(NoCoordinates(u));
      }
      at := at[net.coords[u] := u];
    }
    r := Ok(at);
  }

  /** No linked router is one step from `u` towards `t`. */
  ghost predicate NoStep(net: Network, axes: seq<int>, at: map<Coord, int>, u: int, t: int)
    requires net.Valid() && AxesOk(axes) && Located(net, at)
  {
    && net.IsRouter(u) && net.IsRouter(t) && u != t
    && forall v :: !StepExists(net, axes, at, u, t, v)
  }

  /** The hops of router `u` are all steps. */
  ghost predicate HopsOf(net: Network, axes: seq<int>, at: map<Coord, int>, u: int, hops: map<int, int>)
    requires net.Valid() && AxesOk(axes) && Located(net, at) && net.IsRouter(u)
  {
    forall t :: net.IsRouter(t) && u != t ==> t in hops && StepExists(net, axes, at, u, t, hops[t])
  }

  method HopsFrom(net: Network, axes: seq<int>, at: map<Coord, int>, u: int) returns (r: Result<map<int, int>, GenError>)
    requires net.Valid() && AxesOk(axes) && Located(net, at) && net.IsRouter(u)
    ensures r.Ok? ==> HopsOf(net, axes, at, u, r.value)
    ensures r.Err? ==> exists t :: NoStep(net, axes, at, u, t)
  {
    var hops: map<int, int> := map[];
    for i := 0 to |net.routers|
      invariant forall k :: 0 <= k < i && net.routers[k] != u ==>
        net.routers[k] in hops && StepExists(net, axes, at, u, net.routers[k], hops[net.routers[k]])
    {
      var t := net.routers[i];
      if t != u {
        var next := NextPosition(axes, net.coords[u], net.coords[t]);
        if next.None? {
          NoStepWithoutAxis(net, axes, at, u, t);
          return Err(BadAxis(u, t));
        }
        if next.value !in at || at[next.value] !in net.RouterAdj(u) {
          NoStepWithoutLink(net, axes, at, u, t, next.value);
          return Err(NoNextRouter(u, t));
        }
        hops := hops[t := at[next.value]];
      }
    }
    r := Ok(hops);
  }

  lemma NoStepWithoutAxis(net: Network, axes: seq<int>, at: map<Coord, int>, u: int, t: int)
    requires net.Valid() && AxesOk(axes) && Located(net, at) && net.IsRouter(u) && net.IsRouter(t) && u != t
    requires AxisMissing(axes, net.coords[u], net.coords[t])
    ensures NoStep(net, axes, at, u, t)
  {
    forall v | StepExists(net, axes, at, u, t, v) ensures false {
      NextIsUnique(axes, net.coords[u], net.coords[t], net.coords[v], net.coords[v]);
    }
  }

  lemma NoStepWithoutLink(net: Network, axes: seq<int>, at: map<Coord, int>, u: int, t: int, n: Coord)
    requires net.Valid() && AxesOk(axes) && Located(net, at) && net.IsRouter(u) && net.IsRouter(t) && u != t
    requires NextCoord(axes, net.coords[u], net.coords[t], n)
    requires n !in at || at[n] !in net.RouterAdj(u)
    ensures NoStep(net, axes, at, u, t)
  {
    forall v | StepExists(net, axes, at, u, t, v) ensures false {
      NextIsUnique(axes, net.coords[u], net.coords[t], net.coords[v], n);
    }
  }

  /** Every router has a position, and a linked router one step towards every other one. */
  ghost predicate Routable(net: Network, axes: seq<int>, at: map<Coord, int>)
    requires net.Valid() && AxesOk(axes)
  {
    Located(net, at) && forall u, t :: !NoStep(net, axes, at, u, t)
  }

  ghost predicate HopsUpTo(net: Network, axes: seq<int>, at: map<Coord, int>, first: FirstHops, n: int)
    requires net.Valid() && AxesOk(axes) && Located(net, at) && 0 <= n <= |net.routers|
  {
    forall k :: 0 <= k < n ==> net.routers[k] in first && HopsOf(net, axes, at, net.routers[k], first[net.routers[k]])
  }

  lemma OneMoreRouter(net: Network, axes: seq<int>, at: map<Coord, int>, first: FirstHops, n: int, hops: map<int, int>)
    requires net.Valid() && AxesOk(axes) && Located(net, at) && 0 <= n < |net.routers|
    requires HopsUpTo(net, axes, at, first, n) && HopsOf(net, axes, at, net.routers[n], hops)
    ensures HopsUpTo(net, axes, at, first[net.routers[n] := hops], n + 1)
  {
    var after := first[net.routers[n] := hops];
    forall k | 0 <= k < n + 1
      ensures net.routers[k] in after && HopsOf(net, axes, at, net.routers[k], after[net.routers[k]])
    {
      assert after[net.routers[k]] == if k < n then first[net.routers[k]] else hops;
    }
  }

  method AllHops(net: Network, axes: seq<int>, at: map<Coord, int>) returns (r: Result<FirstHops, GenError>)
    requires net.Valid() && AxesOk(axes) && Located(net, at)
    ensures r.Ok? ==> (forall u :: net.IsRouter(u) ==> u in r.value) && DimensionHops(net, axes, at, r.value)
    ensures r.Err? ==> !Routable(net, axes, at)
  {
    var hops: FirstHops := map[];
    for i := 0 to |net.routers|
      invariant HopsUpTo(net, axes, at, hops, i)
    {
      var from := HopsFrom(net, axes, at, net.routers[i]);
      if from.Err? {
        return Err(from.error);
      }
      OneMoreRouter(net, axes, at, hops, i, from.value);
      hops := hops[net.routers[i] := from.value];
    }
    AllSteps(net, axes, at, hops);
    r := Ok(hops);
  }

  lemma AllSteps(net: Network, axes: seq<int>, at: map<Coord, int>, first: FirstHops)
    requires net.Valid() && AxesOk(axes) && Located(net, at)
    requires HopsUpTo(net, axes, at, first, |net.routers|)
    ensures (forall u :: net.IsRouter(u) ==> u in first) && DimensionHops(net, axes, at, first)
  {
    forall u | net.IsRouter(u) ensures u in first && HopsOf(net, axes, at, u, first[u]) {
    }
  }

  lemma HopsAreRoutable(net: Network, axes: seq<int>, at: map<Coord, int>, first: FirstHops)
    requires net.Valid() && AxesOk(axes) && Located(net, at) && DimensionHops(net, axes, at, first)
    requires forall u :: net.IsRouter(u) ==> u in first
    ensures Routable(net, axes, at) && AllReached(net, first)
  {
    forall u, t ensures !NoStep(net, axes, at, u, t) {
      if net.IsRouter(u) && net.IsRouter(t) && u != t {
        assert HopIsStep(net, axes, at, first, u, t);
      }
    }
    forall src, t | net.IsRouter(src) && net.IsRouter(t) && src != t ensures src in first && t in first[src] {
      assert HopIsStep(net, axes, at, first, src, t);
    }
    forall ni | net.IsNi(ni) && net.NiRouter(ni).Ok? ensures net.IsRouter(Target(net, ni)) {
      NiRouterIsRouter(net, ni);
    }
  }

  /** Routable positions are taken by one router each. */
  lemma LocatedIsUnique(net: Network, axes: seq<int>, at: map<Coord, int>, other: map<Coord, int>)
    requires net.Valid() && AxesOk(axes) && Routable(net, axes, at) && Located(net, other)
    ensures at == other
  {
    assert at.Keys == other.Keys by {
      forall c ensures c in at <==> c in other {
        if c in at { assert net.IsRouter(at[c]); }
        if c in other { assert net.IsRouter(other[c]); }
      }
    }
    forall c | c in at ensures at[c] == other[c] {
      if at[c] != other[c] {
        assert !NoStep(net, axes, at, at[c], other[c]);
        var v :| StepExists(net, axes, at, at[c], other[c], v);
        AgreesWithItself(axes, c, net.coords[v]);
      }
    }
  }

  lemma AgreesWithItself(axes: seq<int>, c: Coord, n: Coord)
    requires AxesOk(axes) && NextCoord(axes, c, c, n)
    ensures n == c
  {
  }

  /** `dimension_order`: whatever it returns, `check_routes` accepts. */
  method DimensionOrder(net: Network, axes: seq<int>)
    returns (r: Result<Tables, GenError>, ghost at: map<Coord, int>, ghost first: FirstHops)
    requires net.Valid() && AxesOk(axes)
    ensures r.Ok? && net.routers != [] ==>
      Located(net, at) && DimensionHops(net, axes, at, first) && TablesOf(net, first, r.value)
    ensures r.Ok? && net.routers != [] ==> AllDeliver(net, r.value) && DeadlockFree(net, r.value)
    ensures r.Ok? <==> net.routers == [] || (NisLinkedOnce(net) && exists places :: Routable(net, axes, places))
  {
    at, first := map[], map[];
    var where := LocateRouters(net);
    if where.Err? {
      return Err(where.error), at, first;
    }
    at := where.value;
    var hops := AllHops(net, axes, where.value);
    if hops.Err? {
      forall places ensures !Routable(net, axes, places) {
        if Routable(net, axes, places) {
          LocatedIsUnique(net, axes, places, at);
        }
      }
      return Err(hops.error), at, first;
    }
    first := hops.value;
    HopsAreRoutable(net, axes, at, first);
    r := TablesFromFirstHops(net, hops.value);
    if r.Ok? && net.routers != [] {
      DimensionDelivers(net, axes, at, first, r.value);
      DimensionDeadlockFree(net, axes, at, first, r.value);
    }
  }
}
