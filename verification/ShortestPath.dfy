/** `shortest_path` (pulp/floonoc_v2/floonoc_v2_routing.py): BFS first hops from every router. */
module ShortestPath {
  import opened Wrappers
  import opened Digraph
  import opened Topology
  import opened Walks
  import opened CheckRoutes
  import opened RoutingTables
  import opened Bfs
  import opened BfsOrder

  /** Routers and the links between them. */
  ghost function RouterGraph(net: Network): Graph<int>
    requires net.Valid()
  {
    map r | r in net.routers :: set n | n in net.RouterAdj(r)
  }

  lemma RouterEdges(net: Network)
    requires net.Valid()
    ensures forall a, b :: Edge(RouterGraph(net), a, b) <==> net.IsRouter(a) && net.IsRouter(b) && b in net.adj[a]
    ensures forall a, b :: Edge(RouterGraph(net), a, b) ==> Edge(RouterGraph(net), b, a) && a != b
  {
  }

  /** Shortest distance, 0 where there is none. */
  ghost function Distance(g: Graph<int>, a: int, b: int): nat {
    if exists k: nat :: Dist(g, a, b, k) then
      var k: nat :| Dist(g, a, b, k);
      k
    else 0
  }

  lemma DistanceIs(g: Graph<int>, a: int, b: int, k: int)
    requires Dist(g, a, b, k)
    ensures Distance(g, a, b) == k
  {
    assert k >= 0;
    DistUnique(g, a, b, k, Distance(g, a, b));
  }

  lemma PathBoundsDistance(g: Graph<int>, a: int, b: int, k: int)
    requires HasPath(g, a, b, k)
    ensures Distance(g, a, b) <= k
  {
    if exists i: nat :: Dist(g, a, b, i) {
      var i: nat :| Dist(g, a, b, i);
      DistanceIs(g, a, b, i);
    } else {
      assert k >= 0;
    }
  }

  ghost predicate OneCloser(g: Graph<int>, u: int, t: int, hop: int) {
    Edge(g, u, hop) && Distance(g, hop, t) == Distance(g, u, t) - 1
  }

  /** The first `j` neighbours. */
  ghost function Prefix(adj: seq<int>, j: nat): (r: set<int>)
    requires j <= |adj|
    ensures forall n :: n in r <==> exists k :: 0 <= k < j && adj[k] == n
  {
    if j == 0 then {} else Prefix(adj, j - 1) + {adj[j - 1]}
  }

  /** `d` is the distance behind `hops`, which leaves the source out. */
  ghost predicate Hops(g: Graph<int>, src: int, d: map<int, int>, hops: map<int, int>) {
    HopsOk(g, src, d, hops) && src in d && hops.Keys == d.Keys - {src}
  }

  /** While the neighbours in `done` of `curr` have been looked at. */
  ghost predicate Expanding(g: Graph<int>, src: int, d: map<int, int>, queue: seq<int>, hops: map<int, int>,
                            curr: int, done: set<int>)
  {
    Mid(g, src, d, queue, curr, done) && Hops(g, src, d, hops)
  }

  lemma ExpandNew(g: Graph<int>, src: int, d: map<int, int>, queue: seq<int>, hops: map<int, int>, curr: int,
                  done: set<int>, n: int)
    requires Expanding(g, src, d, queue, hops, curr, done)
    requires Edge(g, curr, n) && n in g && n != src && n !in hops
    ensures n !in d && curr in d && (curr != src ==> curr in hops)
    ensures Expanding(g, src, d[n := d[curr] + 1], queue + [n],
                      hops[n := if curr == src then n else hops[curr]], curr, done + {n})
  {
    Discover(g, src, d, queue, curr, done, n);
    HopsDiscover(g, src, d, hops, curr, n);
  }

  lemma ExpandOld(g: Graph<int>, src: int, d: map<int, int>, queue: seq<int>, hops: map<int, int>, curr: int,
                  done: set<int>, n: int)
    requires Expanding(g, src, d, queue, hops, curr, done)
    requires n == src || n in hops
    ensures Expanding(g, src, d, queue, hops, curr, done + {n})
  {
    Seen(g, src, d, queue, curr, done, n);
  }

  lemma {:induction false} PrefixAll(adj: seq<int>, j: nat)
    requires j <= |adj|
    ensures forall k :: 0 <= k < j ==> adj[k] in Prefix(adj, j)
    ensures forall n :: n in Prefix(adj, j) ==> n in adj
  {
  }

  lemma PrefixComplete(adj: seq<int>)
    ensures Prefix(adj, |adj|) == set n | n in adj
  {
    PrefixAll(adj, |adj|);
  }

  lemma ExpandEnd(g: Graph<int>, src: int, d: map<int, int>, queue: seq<int>, hops: map<int, int>, rank: int -> int,
                  curr: int, done: set<int>, last: int)
    requires Expanding(g, src, d, queue, hops, curr, done) && OrderMid(g, src, d, queue, hops, rank, curr, last)
    requires curr in g && g[curr] <= done
    ensures Waits(g, src, d, queue, hops, rank)
  {
    Finish(g, src, d, queue, curr, done);
    OrderFinish(g, src, d, queue, hops, rank, curr, done, last);
  }

  /** Between two dequeues. */
  ghost predicate Waits(g: Graph<int>, src: int, d: map<int, int>, queue: seq<int>, hops: map<int, int>, rank: int -> int) {
    Inv(g, src, d, queue) && Hops(g, src, d, hops) && OrderWaiting(g, src, d, queue, hops, rank) && src !in queue
  }

  lemma WaitsDequeue(g: Graph<int>, src: int, d: map<int, int>, queue: seq<int>, hops: map<int, int>, rank: int -> int)
    requires Waits(g, src, d, queue, hops, rank) && queue != []
    ensures queue[0] != src && Expanding(g, src, d, queue[1..], hops, queue[0], {})
    ensures OrderMid(g, src, d, queue[1..], hops, rank, queue[0], -1)
  {
    Dequeue(g, src, d, queue);
    OrderDequeue(g, src, d, queue, hops, rank, -1);
  }

  lemma OrderedStart(g: Graph<int>, src: int, rank: int -> int)
    requires src in g
    ensures Expanding(g, src, map[src := 0], [], map[], src, {}) && OrderMid(g, src, map[src := 0], [], map[], rank, src, -1)
  {
    Start(g, src);
  }

  predicate Ascending(adj: seq<int>, rank: int -> int) {
    forall i, j :: 0 <= i <= j < |adj| ==> 0 <= rank(adj[i]) <= rank(adj[j])
  }

  /** The rank is the position among the links. */
  ghost predicate RanksLinks(adj: seq<int>, rank: int -> int) {
    forall n :: n in adj ==> rank(n) == IndexOf(adj, n)
  }

  lemma AdjAscends(net: Network, u: int, rank: int -> int)
    requires net.Valid() && net.IsRouter(u) && forall n :: rank(n) == LinkRank(net, u, n)
    ensures Ascending(net.RouterAdj(u), rank) && RanksLinks(net.adj[u], rank)
  {
    var adj := net.RouterAdj(u);
    forall i, j | 0 <= i <= j < |adj| ensures 0 <= rank(adj[i]) <= rank(adj[j]) {
      if i < j {
        RoutersInOrder(net, net.adj[u]);
        assert Before(net.adj[u], adj, i, j);
      }
    }
  }

  /** `hop` is the first neighbour, in link order, that is one hop closer. */
  ghost predicate FirstCloser(net: Network, u: int, t: int, hop: int)
    requires net.Valid() && net.IsRouter(u)
  {
    && OneCloser(RouterGraph(net), u, t, hop)
    && forall i :: 0 <= i < |net.adj[u]| && OneCloser(RouterGraph(net), u, t, net.adj[u][i]) ==>
         hop in net.adj[u] && IndexOf(net.adj[u], hop) <= i
  }

  /** What one source's search records: the first hop, in link order, of a shortest path to everything
      reachable. */
  ghost predicate ShortestHops(net: Network, src: int, hops: map<int, int>)
    requires net.Valid() && net.IsRouter(src)
  {
    && (forall t :: t != src ==> (t in hops <==> Reachable(RouterGraph(net), src, t)))
    && (forall t :: t in hops ==> FirstCloser(net, src, t, hops[t]))
  }

  lemma {:induction false} ShortestExists(g: Graph<int>, a: int, b: int, k: int)
    requires HasPath(g, a, b, k)
    ensures HasPath(g, a, b, Distance(g, a, b))
    decreases k
  {
    if forall j :: HasPath(g, a, b, j) ==> k <= j {
      DistanceIs(g, a, b, k);
    } else {
      var j :| HasPath(g, a, b, j) && j < k;
      ShortestExists(g, a, b, j);
    }
  }

  ghost predicate Symmetric(g: Graph<int>) {
    forall a, b :: Edge(g, a, b) ==> Edge(g, b, a)
  }

  /** Links go both ways, so there is a path from a closer neighbour. */
  lemma CloserHasPath(g: Graph<int>, u: int, t: int, h: int, k: int)
    requires Symmetric(g) && OneCloser(g, u, t, h) && HasPath(g, u, t, k)
    ensures HasPath(g, h, t, Distance(g, u, t) - 1)
  {
    PrependHop(g, h, u, t, k);
    ShortestExists(g, h, t, k + 1);
  }

  /** A hop of the best rank comes before any other neighbour with as short a path. */
  lemma BestIsFirst(g: Graph<int>, adj: seq<int>, src: int, d: map<int, int>, hops: map<int, int>, rank: int -> int, t: int, i: int)
    requires t in d && t in hops && BestAt(g, src, d, hops, rank, t)
    requires 0 <= i < |adj| && Edge(g, src, adj[i]) && HasPath(g, adj[i], t, d[t] - 1)
    requires hops[t] in adj && rank(hops[t]) == IndexOf(adj, hops[t]) && rank(adj[i]) == IndexOf(adj, adj[i])
    ensures IndexOf(adj, hops[t]) <= i
  {
    IndexIsLeast(adj, i);
  }

  /** The search with its ghost distances. */
  datatype Progress = Progress(d: map<int, int>, queue: seq<int>, hops: map<int, int>)

  /** A neighbour of `curr` is looked at. */
  ghost function Look(p: Progress, src: int, curr: int, n: int): Progress {
    if n == src || n in p.hops || curr !in p.d || (curr != src && curr !in p.hops) then p
    else Added(p, curr, n, if curr == src then n else p.hops[curr])
  }

  /** `n` is found from `curr`, through first hop `h`. */
  function Added(p: Progress, curr: int, n: int, h: int): Progress
    requires curr in p.d
  {
    Progress(p.d[n := p.d[curr] + 1], p.queue + [n], p.hops[n := h])
  }

  ghost function LookAll(p: Progress, src: int, curr: int, adj: seq<int>, j: nat): Progress
    requires j <= |adj|
  {
    if j == 0 then p else Look(LookAll(p, src, curr, adj, j - 1), src, curr, adj[j - 1])
  }

  ghost predicate AllExpanding(g: Graph<int>, src: int, p: Progress, curr: int, done: set<int>) {
    Expanding(g, src, p.d, p.queue, p.hops, curr, done)
  }

  lemma AddedKeeps(g: Graph<int>, src: int, p: Progress, curr: int, done: set<int>, n: int, h: int, q: Progress)
    requires AllExpanding(g, src, p, curr, done) && Edge(g, curr, n) && n in g && n != src && n !in p.hops
    requires curr in p.d && (curr != src ==> curr in p.hops) && h == (if curr == src then n else p.hops[curr])
    requires q.d == p.d[n := p.d[curr] + 1] && q.queue == p.queue + [n] && q.hops == p.hops[n := h]
    ensures n !in p.d && AllExpanding(g, src, q, curr, done + {n})
  {
    ExpandNew(g, src, p.d, p.queue, p.hops, curr, done, n);
  }

  lemma LookKeeps(g: Graph<int>, src: int, p: Progress, curr: int, done: set<int>, n: int) returns (q: Progress)
    requires AllExpanding(g, src, p, curr, done) && Edge(g, curr, n) && n in g
    ensures q == Look(p, src, curr, n) && (q == p || q.d.Keys > p.d.Keys)
    ensures AllExpanding(g, src, q, curr, done + {n})
  {
    CurrHasHop(g, src, p, curr, done);
    if n == src || n in p.hops {
      q := p;
      ExpandOld(g, src, p.d, p.queue, p.hops, curr, done, n);
    } else {
      var h := if curr == src then n else p.hops[curr];
      q := Added(p, curr, n, h);
      AddedKeeps(g, src, p, curr, done, n, h, q);
    }
  }

  lemma {:induction false} LookAllKeeps(g: Graph<int>, src: int, p: Progress, curr: int, adj: seq<int>, j: nat)
    requires AllExpanding(g, src, p, curr, {}) && j <= |adj|
    requires curr in g && g[curr] <= g.Keys && g[curr] == set n | n in adj
    ensures AllExpanding(g, src, LookAll(p, src, curr, adj, j), curr, Prefix(adj, j))
    ensures
      var q := LookAll(p, src, curr, adj, j);
      curr in q.d && (curr != src ==> curr in q.hops) && (q == p || q.d.Keys > p.d.Keys)
  {
    if j == 0 {
      CurrHasHop(g, src, p, curr, {});
    } else {
      LookAllKeeps(g, src, p, curr, adj, j - 1);
      var q := LookAll(p, src, curr, adj, j - 1);
      var r := LookKeeps(g, src, q, curr, Prefix(adj, j - 1), adj[j - 1]);
      CurrHasHop(g, src, r, curr, Prefix(adj, j));
    }
  }

  lemma CurrHasHop(g: Graph<int>, src: int, p: Progress, curr: int, done: set<int>)
    requires AllExpanding(g, src, p, curr, done)
    ensures Mid(g, src, p.d, p.queue, curr, done) && p.hops.Keys == p.d.Keys - {src} && src in p.d
    ensures curr in p.d && (curr != src ==> curr in p.hops)
  {
  }

  ghost predicate AllOrdered(g: Graph<int>, src: int, p: Progress, rank: int -> int, curr: int, last: int) {
    OrderMid(g, src, p.d, p.queue, p.hops, rank, curr, last)
  }

  lemma AddedOrder(g: Graph<int>, src: int, p: Progress, rank: int -> int, curr: int, done: set<int>, last: int, n: int, h: int,
                   q: Progress)
    requires Mid(g, src, p.d, p.queue, curr, done) && AllOrdered(g, src, p, rank, curr, last) && n !in p.d
    requires curr in p.d && (curr != src ==> curr in p.hops) && h == (if curr == src then n else p.hops[curr])
    requires q.d == p.d[n := p.d[curr] + 1] && q.queue == p.queue + [n] && q.hops == p.hops[n := h]
    requires curr == src ==> last <= rank(n)
    ensures AllOrdered(g, src, q, rank, curr, rank(n))
  {
    OrderDiscover(g, src, p.d, p.queue, p.hops, rank, curr, done, last, n);
  }

  lemma LookOrder(g: Graph<int>, src: int, p: Progress, rank: int -> int, curr: int, done: set<int>, last: int, n: int)
    returns (q: Progress)
    requires Mid(g, src, p.d, p.queue, curr, done) && p.hops.Keys == p.d.Keys - {src} && src in p.d && curr in p.d
    requires AllOrdered(g, src, p, rank, curr, last) && (curr == src ==> last <= rank(n))
    ensures q == Look(p, src, curr, n) && AllOrdered(g, src, q, rank, curr, rank(n))
  {
    if n == src || n in p.hops {
      q := p;
    } else {
      var h := if curr == src then n else p.hops[curr];
      q := Added(p, curr, n, h);
      AddedOrder(g, src, p, rank, curr, done, last, n, h, q);
    }
  }

  function LastRank(adj: seq<int>, rank: int -> int, j: nat): int
    requires j <= |adj|
  {
    if j == 0 then -1 else rank(adj[j - 1])
  }

  lemma {:induction false} LookAllOrder(g: Graph<int>, src: int, p: Progress, rank: int -> int, curr: int, adj: seq<int>, j: nat)
    requires AllExpanding(g, src, p, curr, {}) && AllOrdered(g, src, p, rank, curr, -1) && j <= |adj|
    requires curr in g && g[curr] <= g.Keys && g[curr] == set n | n in adj
    requires curr == src ==> Ascending(adj, rank)
    ensures AllOrdered(g, src, LookAll(p, src, curr, adj, j), rank, curr, LastRank(adj, rank, j))
  {
    if j > 0 {
      LookAllOrder(g, src, p, rank, curr, adj, j - 1);
      LookAllKeeps(g, src, p, curr, adj, j - 1);
      CurrHasHop(g, src, LookAll(p, src, curr, adj, j - 1), curr, Prefix(adj, j - 1));
      var q := LookOrder(g, src, LookAll(p, src, curr, adj, j - 1), rank, curr, Prefix(adj, j - 1),
                         LastRank(adj, rank, j - 1), adj[j - 1]);
    }
  }

  lemma LookAllEnds(g: Graph<int>, src: int, p: Progress, rank: int -> int, curr: int, adj: seq<int>,
                    d': map<int, int>, queue': seq<int>, hops': map<int, int>)
    requires AllExpanding(g, src, p, curr, {}) && AllOrdered(g, src, p, rank, curr, -1)
    requires curr in g && g[curr] <= g.Keys && g[curr] == set n | n in adj
    requires curr == src ==> Ascending(adj, rank)
    requires Progress(d', queue', hops') == LookAll(p, src, curr, adj, |adj|)
    ensures Waits(g, src, d', queue', hops', rank) && (Progress(d', queue', hops') == p || d'.Keys > p.d.Keys)
  {
    LookAllKeeps(g, src, p, curr, adj, |adj|);
    LookAllOrder(g, src, p, rank, curr, adj, |adj|);
    PrefixComplete(adj);
    ExpandEnd(g, src, d', queue', hops', rank, curr, Prefix(adj, |adj|), LastRank(adj, rank, |adj|));
  }

  lemma LookAllHasCurr(p: Progress, src: int, curr: int, adj: seq<int>, j: nat)
    requires j <= |adj| && curr in p.d && (curr != src ==> curr in p.hops)
    ensures
      var q := LookAll(p, src, curr, adj, j);
      curr in q.d && (curr != src ==> curr in q.hops)
  {
  }

  /** What one turn of the loop does is what `Look` says. */
  lemma LookedAt(p: Progress, src: int, curr: int, n: int, q: Progress)
    requires curr in p.d && (curr != src ==> curr in p.hops)
    requires
      if n != src && n !in p.hops then
        && q.hops == p.hops[n := if curr == src then n else p.hops[curr]]
        && q.queue == p.queue + [n] && q.d == p.d[n := p.d[curr] + 1]
      else q == p
    ensures q == Look(p, src, curr, n)
  {
  }

  /** One expansion: the inner `for` over the neighbours of `curr`. */
  method Expand(adj: seq<int>, src: int, curr: int, hops: map<int, int>, queue: seq<int>, ghost d: map<int, int>)
    returns (hops': map<int, int>, queue': seq<int>, ghost d': map<int, int>)
    requires curr in d && (curr != src ==> curr in hops)
    ensures Progress(d', queue', hops') == LookAll(Progress(d, queue, hops), src, curr, adj, |adj|)
  {
    hops', queue', d' := hops, queue, d;
    ghost var p := Progress(d, queue, hops);
    for j := 0 to |adj|
      invariant Progress(d', queue', hops') == LookAll(p, src, curr, adj, j)
    {
      var n := adj[j];
      ghost var q := Progress(d', queue', hops');
      LookAllHasCurr(p, src, curr, adj, j);
      if n != src && n !in hops' {
        hops' := hops'[n := if curr == src then n else hops'[curr]];
        queue' := queue' + [n];
        d' := d'[n := d'[curr] + 1];
      }
      LookedAt(q, src, curr, n, Progress(d', queue', hops'));
    }
  }

  lemma HopBefore(g: Graph<int>, adj: seq<int>, src: int, d: map<int, int>, hops: map<int, int>, rank: int -> int, t: int, i: int)
    requires Symmetric(g) && t in hops && t in d && hops[t] in adj && HasPath(g, src, t, d[t]) && Distance(g, src, t) == d[t]
    requires BestAt(g, src, d, hops, rank, t) && RanksLinks(adj, rank)
    requires 0 <= i < |adj| && OneCloser(g, src, t, adj[i])
    ensures IndexOf(adj, hops[t]) <= i
  {
    CloserHasPath(g, src, t, adj[i], d[t]);
    BestIsFirst(g, adj, src, d, hops, rank, t, i);
  }

  lemma LinksAreMutual(net: Network, src: int, h: int)
    requires net.Valid() && Edge(RouterGraph(net), src, h)
    ensures Symmetric(RouterGraph(net)) && net.IsRouter(src) && h in net.adj[src]
  {
    RouterEdges(net);
  }

  lemma HopIsFirst(net: Network, src: int, d: map<int, int>, hops: map<int, int>, rank: int -> int, t: int)
    requires net.Valid() && net.IsRouter(src) && t in hops && t in d && RanksLinks(net.adj[src], rank)
    requires OneCloser(RouterGraph(net), src, t, hops[t]) && Dist(RouterGraph(net), src, t, d[t])
    requires BestAt(RouterGraph(net), src, d, hops, rank, t)
    ensures FirstCloser(net, src, t, hops[t])
  {
    LinksAreMutual(net, src, hops[t]);
    DistanceIs(RouterGraph(net), src, t, d[t]);
    forall i | 0 <= i < |net.adj[src]| && OneCloser(RouterGraph(net), src, t, net.adj[src][i])
      ensures IndexOf(net.adj[src], hops[t]) <= i
    {
      HopBefore(RouterGraph(net), net.adj[src], src, d, hops, rank, t, i);
    }
  }

  lemma SearchedHop(g: Graph<int>, src: int, d: map<int, int>, hops: map<int, int>, rank: int -> int, t: int)
    requires Inv(g, src, d, []) && Hops(g, src, d, hops) && AllBest(g, src, d, hops, rank) && t in hops
    ensures t in d && OneCloser(g, src, t, hops[t]) && Dist(g, src, t, d[t]) && BestAt(g, src, d, hops, rank, t)
  {
    Done(g, src, d);
    HopIsShortest(g, src, d, hops, t);
    DistanceIs(g, src, t, d[t]);
    DistanceIs(g, hops[t], t, d[t] - 1);
  }

  lemma SearchReaches(g: Graph<int>, src: int, d: map<int, int>, hops: map<int, int>)
    requires Inv(g, src, d, []) && Hops(g, src, d, hops)
    ensures src !in hops && forall t :: t != src ==> (t in hops <==> Reachable(g, src, t))
  {
    Done(g, src, d);
  }

  lemma SearchDone(net: Network, src: int, d: map<int, int>, hops: map<int, int>, rank: int -> int)
    requires net.Valid() && net.IsRouter(src) && Inv(RouterGraph(net), src, d, []) && Hops(RouterGraph(net), src, d, hops)
    requires AllBest(RouterGraph(net), src, d, hops, rank) && RanksLinks(net.adj[src], rank)
    ensures src !in hops && ShortestHops(net, src, hops)
  {
    SearchReaches(RouterGraph(net), src, d, hops);
    forall t | t in hops ensures FirstCloser(net, src, t, hops[t]) {
      SearchedHop(RouterGraph(net), src, d, hops, rank, t);
      HopIsFirst(net, src, d, hops, rank, t);
    }
  }

  lemma KeysInGraph(g: Graph<int>, src: int, d: map<int, int>, queue: seq<int>)
    requires Inv(g, src, d, queue)
    ensures d.Keys <= g.Keys && forall q :: q in queue ==> q in g
  {
  }

  /** `router_adj` lists the edges of the router graph. */
  lemma AdjIsEdges(net: Network, curr: int)
    requires net.Valid() && net.IsRouter(curr)
    ensures
      var g := RouterGraph(net);
      curr in g && g[curr] <= g.Keys && g[curr] == set n | n in net.RouterAdj(curr)
  {
    forall n | n in net.RouterAdj(curr) ensures n in RouterGraph(net) {
      assert n in net.Routers(net.adj[curr]);
    }
  }

  method Search(net: Network, src: int) returns (hops: map<int, int>)
    requires net.Valid() && net.IsRouter(src)
    ensures src !in hops && ShortestHops(net, src, hops)
  {
    ghost var g := RouterGraph(net);
    ghost var rank := (n: int) => LinkRank(net, src, n);
    ghost var d := map[src := 0];
    var queue: seq<int> := [];
    hops := map[];
    AdjIsEdges(net, src);
    AdjAscends(net, src, rank);
    OrderedStart(g, src, rank);
    ghost var p := Progress(d, queue, hops);
    hops, queue, d := Expand(net.RouterAdj(src), src, src, hops, queue, d);
    LookAllEnds(g, src, p, rank, src, net.RouterAdj(src), d, queue, hops);
    while queue != []
      invariant Waits(g, src, d, queue, hops, rank)
      decreases g.Keys - d.Keys, |queue|
    {
      var curr := queue[0];
      KeysInGraph(g, src, d, queue);
      AdjIsEdges(net, curr);
      WaitsDequeue(g, src, d, queue, hops, rank);
      queue := queue[1..];
      p := Progress(d, queue, hops);
      CurrHasHop(g, src, p, curr, {});
      hops, queue, d := Expand(net.RouterAdj(curr), src, curr, hops, queue, d);
      LookAllEnds(g, src, p, rank, curr, net.RouterAdj(curr), d, queue, hops);
      KeysInGraph(g, src, d, queue);
      assert d == p.d || g.Keys - d.Keys < g.Keys - p.d.Keys;
    }
    SearchDone(net, src, d, hops, rank);
  }

  /** Every router reaches every router an NI hangs off. */
  ghost predicate Connected(net: Network)
    requires net.Valid()
  {
    forall src, ni :: net.IsRouter(src) && net.IsNi(ni) && net.NiRouter(ni).Ok? ==>
      src == Target(net, ni) || Reachable(RouterGraph(net), src, Target(net, ni))
  }

  /** A walk `[s, router, ..., router, d]` has no more router-to-router hops than any path of links. */
  ghost predicate Minimal(net: Network, s: int, d: int, p: seq<int>)
    requires net.Valid()
  {
    net.IsNi(s) && net.IsNi(d) && net.NiRouter(s).Ok? && net.NiRouter(d).Ok? ==>
      forall k :: HasPath(RouterGraph(net), Target(net, s), Target(net, d), k) ==> |p| - 3 <= k
  }

  /** `shortest_path`: tables exist exactly on a connected network (or one without routers); they deliver
      every packet, over as few router hops as any path of links has, and ties are broken by link order. */
  method ShortestPathTables(net: Network) returns (r: Result<Tables, GenError>)
    requires net.Valid()
    ensures r.Ok? <==> net.routers == [] || (NisLinkedOnce(net) && Connected(net))
    ensures r.Ok? && net.routers != [] ==>
      AllDeliver(net, r.value) && forall s, d, p :: Delivered(net, r.value, s, d, p) ==> Minimal(net, s, d, p)
    ensures r.Ok? && net.routers != [] ==> TablesFirst(net, r.value)
  {
    var first: FirstHops := map[];
    for i := 0 to |net.routers|
      invariant forall k :: 0 <= k < i ==>
        && net.routers[k] in first && net.routers[k] !in first[net.routers[k]]
        && ShortestHops(net, net.routers[k], first[net.routers[k]])
    {
      var hops := Search(net, net.routers[i]);
      first := first[net.routers[i] := hops];
    }
    r := TablesFromFirstHops(net, first);
    if r.Ok? && net.routers != [] {
      ShortestDelivers(net, first, r.value);
      EntriesAreFirst(net, first, r.value);
    }
  }

  ghost predicate AllShortest(net: Network, first: FirstHops)
    requires net.Valid()
  {
    forall u :: net.IsRouter(u) ==> u in first && ShortestHops(net, u, first[u])
  }

  lemma ShortestDescends(net: Network, first: FirstHops, tables: Tables, dst: int) returns (measure: int -> nat)
    requires net.Valid() && AllShortest(net, first) && TablesOf(net, first, tables) && net.IsNi(dst)
    ensures DescendsByOne(net, tables, dst, measure)
    ensures forall u :: measure(u) == Distance(RouterGraph(net), u, Target(net, dst))
  {
    var t := Target(net, dst);
    NiRouterIsRouter(net, dst);
    measure := u => Distance(RouterGraph(net), u, t);
    RouterEdges(net);
    forall u | net.IsRouter(u) && u != t
      ensures
        && u in first && t in first[u] && first[u][t] in net.RouterAdj(u)
        && measure(first[u][t]) == measure(u) - 1
    {
      assert Entry(net, first, tables[u], u, dst);
      assert OneCloser(RouterGraph(net), u, t, first[u][t]);
    }
    TablesDescend(net, first, tables, dst, measure);
    forall u | net.IsRouter(u)
      ensures if tables[u][dst] == dst then measure(u) == 0 else measure(tables[u][dst]) == measure(u) - 1
    {
      assert Entry(net, first, tables[u], u, dst);
      if u == t {
        assert HasPath(RouterGraph(net), u, u, 0);
        DistanceIs(RouterGraph(net), u, u, 0);
      }
    }
  }

  /** Every table entry towards another router is the first closer neighbour in link order. */
  ghost predicate TablesFirst(net: Network, tables: Tables)
    requires net.Valid()
  {
    forall u, ni :: net.IsRouter(u) && net.IsNi(ni) && net.NiRouter(ni).Ok? && Target(net, ni) != u ==>
      HasHop(tables, u, ni) && FirstCloser(net, u, Target(net, ni), tables[u][ni])
  }

  lemma EntriesAreFirst(net: Network, first: FirstHops, tables: Tables)
    requires net.Valid() && AllShortest(net, first) && TablesOf(net, first, tables)
    ensures TablesFirst(net, tables)
  {
    forall u, ni | net.IsRouter(u) && net.IsNi(ni) && net.NiRouter(ni).Ok? && Target(net, ni) != u
      ensures HasHop(tables, u, ni) && FirstCloser(net, u, Target(net, ni), tables[u][ni])
    {
      assert Entry(net, first, tables[u], u, ni);
    }
  }

  lemma ShortestDelivers(net: Network, first: FirstHops, tables: Tables)
    requires net.Valid() && AllShortest(net, first) && TablesOf(net, first, tables)
    ensures AllDeliver(net, tables)
    ensures forall s, d, p :: Delivered(net, tables, s, d, p) ==> Minimal(net, s, d, p)
  {
    AllPairsExact(net.nis);
    forall s, d | (s, d) in AllPairs(net.nis) ensures exists p :: Delivered(net, tables, s, d, p) {
      var measure := ShortestDescends(net, first, tables, d);
      var p := DeliverOne(net, tables, s, d, measure);
    }
    forall s, d, p | Delivered(net, tables, s, d, p) ensures Minimal(net, s, d, p) {
      if net.IsNi(d) {
        var measure := ShortestDescends(net, first, tables, d);
        NiRouterIsRouter(net, s);
        HopsLeft(net, tables, s, d, measure, p, 1);
        forall k | HasPath(RouterGraph(net), Target(net, s), Target(net, d), k) ensures |p| - 3 <= k {
          PathBoundsDistance(RouterGraph(net), Target(net, s), Target(net, d), k);
        }
      }
    }
  }
}
