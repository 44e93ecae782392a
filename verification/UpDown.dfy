/** `up_down` (pulp/floonoc_v2/floonoc_v2_routing.py): Up*\/Down* routing on a BFS spanning tree. */
module UpDown {
  import opened Wrappers
  import opened Digraph
  import opened Topology
  import opened Walks
  import opened CheckRoutes
  import opened RoutingTables
  import opened Bfs
  import opened ShortestPath
  import opened BfsOrder

  type Levels = map<int, int>

  /** A router and whether the packet has already gone down. */
  type Place = (int, bool)

  /** Towards the root: lower level, ties broken by node ID. */
  predicate IsUp(levels: Levels, u: int, v: int)
    requires u in levels && v in levels
  {
    levels[v] < levels[u] || (levels[v] == levels[u] && v < u)
  }

  ghost predicate LevelsCover(net: Network, levels: Levels)
    requires net.Valid()
  {
    forall r :: net.IsRouter(r) ==> r in levels
  }

  /** `_bfs_levels`: BFS distance from the root; refused unless all routers are connected to it. */
  method BfsLevels(net: Network, root: int) returns (r: Result<Levels, GenError>)
    requires net.Valid() && net.IsRouter(root)
    ensures r.Ok? ==> LevelsCover(net, r.value) && forall u :: u in r.value ==> Dist(RouterGraph(net), root, u, r.value[u])
    ensures r.Ok? <==> forall u :: net.IsRouter(u) ==> Reachable(RouterGraph(net), root, u)
  {
    ghost var g := RouterGraph(net);
    var levels: Levels := map[root := 0];
    var queue := [root];
    Start(g, root);
    while queue != []
      invariant Inv(g, root, levels, queue)
      decreases g.Keys - levels.Keys, |queue|
    {
      var curr := queue[0];
      KeysInGraph(g, root, levels, queue);
      Dequeue(g, root, levels, queue);
      AdjIsEdges(net, curr);
      ghost var before := levels;
      levels, queue := ExpandLevels(g, net.RouterAdj(curr), root, curr, levels, queue[1..]);
      KeysInGraph(g, root, levels, queue);
      assert levels == before || g.Keys - levels.Keys < g.Keys - before.Keys;
    }
    Done(g, root, levels);
    KeysInGraph(g, root, levels, queue);
    CountRouters(net, levels);
    if |levels| != |net.routers| {
      return Err(NotConnected);
    }
    r := Ok(levels);
  }

  ghost predicate Leveling(g: Graph<int>, root: int, levels: Levels, queue: seq<int>, curr: int, done: set<int>) {
    Mid(g, root, levels, queue, curr, done)
  }

  lemma LevelStep(g: Graph<int>, root: int, levels: Levels, queue: seq<int>, curr: int, done: set<int>, n: int)
    requires Leveling(g, root, levels, queue, curr, done) && Edge(g, curr, n) && n in g
    ensures curr in levels
    ensures
      if n in levels then Leveling(g, root, levels, queue, curr, done + {n})
      else Leveling(g, root, levels[n := levels[curr] + 1], queue + [n], curr, done + {n})
  {
    if n in levels {
      Seen(g, root, levels, queue, curr, done, n);
    } else {
      Discover(g, root, levels, queue, curr, done, n);
    }
  }

  lemma LevelEnd(g: Graph<int>, root: int, levels: Levels, queue: seq<int>, curr: int, adj: seq<int>)
    requires Leveling(g, root, levels, queue, curr, Prefix(adj, |adj|))
    requires curr in g && g[curr] == set n | n in adj
    ensures Inv(g, root, levels, queue)
  {
    PrefixComplete(adj);
    Finish(g, root, levels, queue, curr, Prefix(adj, |adj|));
  }

  method ExpandLevels(ghost g: Graph<int>, adj: seq<int>, ghost root: int, curr: int, levels: Levels, queue: seq<int>)
    returns (levels': Levels, queue': seq<int>)
    requires curr in g && g[curr] <= g.Keys && g[curr] == set n | n in adj
    requires Leveling(g, root, levels, queue, curr, {})
    ensures Inv(g, root, levels', queue')
    ensures (levels' == levels && queue' == queue) || levels'.Keys > levels.Keys
  {
    levels', queue' := levels, queue;
    for j := 0 to |adj|
      invariant Leveling(g, root, levels', queue', curr, Prefix(adj, j))
      invariant (levels' == levels && queue' == queue) || levels'.Keys > levels.Keys
    {
      var n := adj[j];
      LevelStep(g, root, levels', queue', curr, Prefix(adj, j), n);
      if n !in levels' {
        levels' := levels'[n := levels'[curr] + 1];
        queue' := queue' + [n];
      }
    }
    LevelEnd(g, root, levels', queue', curr, adj);
  }

  /** As many levels as routers means that every router has one. */
  lemma CountRouters(net: Network, levels: Levels)
    requires net.Valid() && forall r :: r in levels ==> net.IsRouter(r)
    ensures |levels| == |net.routers| <==> forall r :: net.IsRouter(r) ==> r in levels
  {
    var all := set r | r in net.routers;
    DistinctCount(net.routers);
    assert |levels| == |levels.Keys|;
    forall r | r in levels.Keys ensures r in all {
      assert r in levels && net.IsRouter(r);
    }
    SubsetCount(levels.Keys, all);
    if all <= levels.Keys {
      forall r | net.IsRouter(r) ensures r in levels {
        assert r in all;
      }
    }
    if forall r :: net.IsRouter(r) ==> r in levels {
      forall r | r in all ensures r in levels.Keys {
        assert net.IsRouter(r);
      }
    }
  }

  lemma SubsetCount(a: set<int>, b: set<int>)
    requires a <= b
    ensures |a| <= |b| && (|a| == |b| <==> b <= a)
  {
    var c := b - a;
    assert b == a + c && a * c == {};
    assert |b| == |a| + |c|;
  }

  lemma {:induction false} DistinctCount(s: seq<int>)
    requires Distinct(s)
    ensures |set r | r in s| == |s|
  {
    if s != [] {
      var p, l := s[..|s| - 1], s[|s| - 1];
      assert forall i :: 0 <= i < |p| ==> p[i] == s[i];
      DistinctCount(p);
      assert (set r | r in s) == (set r | r in p) + {l};
    }
  }

  /** Where a packet at `s` may go next: never up after having gone down. */
  ghost predicate Legal(net: Network, levels: Levels, s: Place, t: Place)
    requires net.Valid() && LevelsCover(net, levels)
  {
    && net.IsRouter(s.0) && net.IsRouter(t.0) && t.0 in net.adj[s.0]
    && !(s.1 && IsUp(levels, s.0, t.0))
    && t.1 == (s.1 || !IsUp(levels, s.0, t.0))
  }

  ghost function Places(net: Network): set<Place> {
    set r, b | r in net.routers && b in {false, true} :: (r, b)
  }

  ghost function UdGraph(net: Network, levels: Levels): (g: Graph<Place>)
    requires net.Valid() && LevelsCover(net, levels)
    ensures forall s, t :: Edge(g, s, t) <==> Legal(net, levels, s, t)
    ensures forall r, b :: net.IsRouter(r) ==> (r, b) in g
  {
    map s | s in Places(net) :: set t | t in Places(net) && Legal(net, levels, s, t)
  }

  /** `k` hops is the shortest legal route from `u` to `t`. */
  ghost predicate LegalDist(g: Graph<Place>, u: int, t: int, k: int) {
    && (HasPath(g, (u, false), (t, false), k) || HasPath(g, (u, false), (t, true), k))
    && forall b, j :: HasPath(g, (u, false), (t, b), j) ==> k <= j
  }

  ghost predicate HasLegalRoute(g: Graph<Place>, u: int, t: int) {
    exists b :: Reachable(g, (u, false), (t, b))
  }

  /** Dropping the memory of having gone down only adds choices. */
  lemma {:induction false} Forget(net: Network, levels: Levels, v: int, gone: bool, t: Place, k: int) returns (b: bool)
    requires net.Valid() && LevelsCover(net, levels)
    requires HasPath(UdGraph(net, levels), (v, gone), t, k)
    ensures HasPath(UdGraph(net, levels), (v, false), (t.0, b), k)
    ensures b ==> t.1
    decreases k
  {
    var g := UdGraph(net, levels);
    if k <= 0 {
      b := false;
    } else {
      var w :| HasPath(g, (v, gone), w, k - 1) && Edge(g, w, t);
      var c := Forget(net, levels, v, gone, w, k - 1);
      b := c || !IsUp(levels, w.0, t.0);
      assert Edge(g, (w.0, c), (t.0, b));
    }
  }

  /** A queue entry: router, gone down or not, and the first hop it was found through. */
  type QueueEntry = (int, bool, Option<int>)

  /** The state of one source's search. `hops` and `queue` are the program's; `d` is the distance
      of each visited place, `q` the queued places, `best[t]` the place at which router `t` was first
      dequeued, `first[s]` the place one hop from the source through which `s` was found. */
  datatype LegalSearch = LegalSearch(
    hops: map<int, int>, queue: seq<QueueEntry>,
    d: map<Place, int>, q: seq<Place>, best: map<int, Place>, first: map<Place, Place>)

  ghost predicate BestOk(st: LegalSearch, t: int, lo: int)
    requires t in st.hops
  {
    && t in st.best && st.best[t] in st.d && st.best[t].0 == t && st.d[st.best[t]] <= lo
    && st.best[t] in st.first && st.hops[t] == st.first[st.best[t]].0
    && forall b :: (t, b) in st.d ==> st.d[st.best[t]] <= st.d[(t, b)]
  }

  /** Every router dequeued so far is recorded, through its closest place. */
  ghost predicate Recorded(src: int, st: LegalSearch, lo: int) {
    && src !in st.hops
    && (forall t :: t in st.hops ==> BestOk(st, t, lo))
    && (forall s :: s in st.d && s !in st.q && s.0 != src ==> s.0 in st.hops)
  }

  ghost function HopName(src: int, s: Place, first: map<Place, Place>): Option<int> {
    if s == (src, false) then None else if s in first then Some(first[s].0) else None
  }

  /** The queue entries name the queued places and their first hops. */
  ghost predicate EntriesOk(src: int, st: LegalSearch) {
    && |st.queue| == |st.q|
    && forall i :: 0 <= i < |st.q| ==> st.queue[i] == (st.q[i].0, st.q[i].1, HopName(src, st.q[i], st.first))
  }

  /** Between two dequeues; everything recorded is at most `lo` away. */
  ghost predicate Waiting(g: Graph<Place>, src: int, st: LegalSearch, lo: int) {
    && Inv(g, (src, false), st.d, st.q) && HopsOk(g, (src, false), st.d, st.first)
    && EntriesOk(src, st) && Recorded(src, st, lo)
    && (st.q != [] ==> st.q[0] in st.d && lo <= st.d[st.q[0]])
  }

  /** While the places in `done` next to `curr` have been looked at. */
  ghost predicate Searching(g: Graph<Place>, src: int, st: LegalSearch, curr: Place, done: set<Place>) {
    && Mid(g, (src, false), st.d, st.q, curr, done) && HopsOk(g, (src, false), st.d, st.first)
    && EntriesOk(src, st) && Recorded(src, st, st.d[curr])
  }

  function InitSearch(src: int): LegalSearch {
    LegalSearch(map[], [(src, false, None)], map[(src, false) := 0], [(src, false)], map[], map[])
  }

  lemma SearchStart(g: Graph<Place>, src: int)
    requires (src, false) in g
    ensures Waiting(g, src, InitSearch(src), 0)
  {
    Start(g, (src, false));
  }

  /** `queue.popleft()`; a router met for the first time is recorded. */
  function Dequeued(src: int, st: LegalSearch): LegalSearch
    requires st.queue != [] && st.q != []
  {
    var (u, gone, hop) := st.queue[0];
    var rest := st.(queue := st.queue[1..], q := st.q[1..]);
    if u != src && u !in st.hops && hop.Some? then rest.(hops := st.hops[u := hop.value], best := st.best[u := (u, gone)])
    else rest
  }

  /** The entry at the head of the queue describes the place at its head, with the hop it was found by. */
  lemma HeadEntry(g: Graph<Place>, src: int, st: LegalSearch, lo: int)
    requires st.q != [] && Waiting(g, src, st, lo)
    ensures
      var s := st.q[0];
      st.queue != [] && s in st.d && st.queue[0] == (s.0, s.1, HopName(src, s, st.first)) && (s.0 != src ==> s in st.first)
  {
    var s := st.q[0];
    if s != (src, false) {
      assert HopOk(g, (src, false), st.d, s, st.first[s]);
    }
  }

  lemma RecordOnDequeue(g: Graph<Place>, src: int, st: LegalSearch, lo: int)
    requires st.q != [] && Waiting(g, src, st, lo)
    ensures st.queue != [] && Recorded(src, Dequeued(src, st), st.d[st.q[0]]) && EntriesOk(src, Dequeued(src, st))
    ensures st.q[0].0 != src ==> st.queue[0].2.Some?
  {
    HeadEntry(g, src, st, lo);
    HeadIsClosest(g, src, st, lo);
    RecordHead(src, st, lo);
  }

  lemma HeadIsClosest(g: Graph<Place>, src: int, st: LegalSearch, lo: int)
    requires st.q != [] && Waiting(g, src, st, lo) && st.q[0] in st.d
    ensures forall x :: x in st.q ==> x in st.d && st.d[st.q[0]] <= st.d[x]
  {
  }

  lemma RecordHead(src: int, st: LegalSearch, lo: int)
    requires st.q != [] && EntriesOk(src, st) && Recorded(src, st, lo) && st.q[0] in st.d
    requires forall x :: x in st.q ==> x in st.d && st.d[st.q[0]] <= st.d[x]
    requires lo <= st.d[st.q[0]] && (st.q[0].0 != src ==> st.q[0] in st.first)
    ensures Recorded(src, Dequeued(src, st), st.d[st.q[0]]) && EntriesOk(src, Dequeued(src, st))
  {
    var s, st' := st.q[0], Dequeued(src, st);
    assert st.queue[0] == (s.0, s.1, HopName(src, s, st.first));
    assert st.q == [s] + st.q[1..];
    assert forall x :: x in st.q <==> x == s || x in st.q[1..];
    forall t | t in st'.hops ensures BestOk(st', t, st.d[s]) {
      if t in st.hops {
        assert BestOk(st, t, lo);
      } else {
        forall b | (t, b) in st.d ensures st.d[s] <= st.d[(t, b)] {
          assert (t, b) in st.q;
        }
      }
    }
  }

  lemma SearchDequeue(g: Graph<Place>, src: int, st: LegalSearch, lo: int)
    requires Waiting(g, src, st, lo) && st.queue != []
    ensures st.q != [] && st.q[0] == (st.queue[0].0, st.queue[0].1)
    ensures st.queue[0].2 == HopName(src, st.q[0], st.first) && (st.q[0].0 != src ==> st.queue[0].2.Some?)
    ensures Searching(g, src, Dequeued(src, st), st.q[0], {})
  {
    RecordOnDequeue(g, src, st, lo);
    Dequeue(g, (src, false), st.d, st.q);
    assert st.queue[0] == (st.q[0].0, st.q[0].1, HopName(src, st.q[0], st.first));
  }

  lemma SearchSeen(g: Graph<Place>, src: int, st: LegalSearch, curr: Place, done: set<Place>, n: Place)
    requires Searching(g, src, st, curr, done) && n in st.d
    ensures Searching(g, src, st, curr, done + {n})
  {
    Seen(g, (src, false), st.d, st.q, curr, done, n);
  }

  /** A place seen for the first time inherits the first hop of the place it was found from. */
  function Found(src: int, st: LegalSearch, curr: Place, n: Place, hop: Option<int>): LegalSearch
    requires curr in st.d
  {
    var h := if curr in st.first && curr != (src, false) then st.first[curr] else n;
    st.(queue := st.queue + [(n.0, n.1, if hop.None? then Some(n.0) else hop)],
        d := st.d[n := st.d[curr] + 1], q := st.q + [n], first := st.first[n := h])
  }

  lemma FoundRecords(src: int, st: LegalSearch, curr: Place, n: Place, hop: Option<int>)
    requires curr in st.d && n !in st.d && (src, false) in st.d && (curr != (src, false) ==> curr in st.first)
    requires forall x :: x in st.q ==> x in st.d
    requires EntriesOk(src, st) && Recorded(src, st, st.d[curr]) && hop == HopName(src, curr, st.first)
    ensures
      var st' := Found(src, st, curr, n, hop);
      EntriesOk(src, st') && Recorded(src, st', st.d[curr])
  {
    var st' := Found(src, st, curr, n, hop);
    assert forall x :: x in st'.q <==> x in st.q || x == n;
    forall i | 0 <= i < |st'.q| ensures st'.queue[i] == (st'.q[i].0, st'.q[i].1, HopName(src, st'.q[i], st'.first)) {
      assert i < |st.q| ==> st.q[i] in st.q;
    }
    forall t | t in st.hops ensures BestOk(st', t, st.d[curr]) {
      assert BestOk(st, t, st.d[curr]);
    }
  }

  lemma NewPlace(g: Graph<Place>, src: int, st: LegalSearch, curr: Place, done: set<Place>, n: Place)
    requires Mid(g, (src, false), st.d, st.q, curr, done) && HopsOk(g, (src, false), st.d, st.first)
    ensures curr in st.d && (src, false) in st.d && st.d[(src, false)] == 0
    ensures curr != (src, false) ==> curr in st.first
    ensures forall x :: x in st.q ==> x in st.d
  {
  }

  lemma FoundGraph(g: Graph<Place>, src: int, st: LegalSearch, curr: Place, done: set<Place>, n: Place, hop: Option<int>)
    requires Mid(g, (src, false), st.d, st.q, curr, done) && HopsOk(g, (src, false), st.d, st.first)
    requires n !in st.d && Edge(g, curr, n) && n in g
    requires curr in st.d && (src, false) in st.d && st.d[(src, false)] == 0 && (curr != (src, false) ==> curr in st.first)
    ensures
      var st' := Found(src, st, curr, n, hop);
      Mid(g, (src, false), st'.d, st'.q, curr, done + {n}) && HopsOk(g, (src, false), st'.d, st'.first)
  {
    var st' := Found(src, st, curr, n, hop);
    assert st'.d == st.d[n := st.d[curr] + 1] && st'.q == st.q + [n];
    assert st'.first == st.first[n := if curr == (src, false) then n else st.first[curr]];
    FoundMid(g, src, st, st', curr, done, n);
    FoundHops(g, src, st, st', curr, n);
  }

  lemma FoundHops(g: Graph<Place>, src: int, st: LegalSearch, st': LegalSearch, curr: Place, n: Place)
    requires HopsOk(g, (src, false), st.d, st.first) && n !in st.d && Edge(g, curr, n)
    requires curr in st.d && (src, false) in st.d && st.d[(src, false)] == 0 && (curr != (src, false) ==> curr in st.first)
    requires st'.d == st.d[n := st.d[curr] + 1]
    requires st'.first == st.first[n := if curr == (src, false) then n else st.first[curr]]
    ensures HopsOk(g, (src, false), st'.d, st'.first)
  {
    HopsDiscover(g, (src, false), st.d, st.first, curr, n);
  }

  lemma FoundMid(g: Graph<Place>, src: int, st: LegalSearch, st': LegalSearch, curr: Place, done: set<Place>, n: Place)
    requires Mid(g, (src, false), st.d, st.q, curr, done)
    requires n !in st.d && Edge(g, curr, n) && n in g && curr in st.d
    requires st'.d == st.d[n := st.d[curr] + 1] && st'.q == st.q + [n]
    ensures Mid(g, (src, false), st'.d, st'.q, curr, done + {n})
  {
    Discover(g, (src, false), st.d, st.q, curr, done, n);
  }

  lemma SearchNew(g: Graph<Place>, src: int, st: LegalSearch, curr: Place, done: set<Place>, n: Place, hop: Option<int>)
    requires Searching(g, src, st, curr, done)
    requires n !in st.d && Edge(g, curr, n) && n in g && hop == HopName(src, curr, st.first)
    ensures curr in st.d && HopName(src, curr, Found(src, st, curr, n, hop).first) == hop
    ensures Searching(g, src, Found(src, st, curr, n, hop), curr, done + {n})
  {
    NewPlace(g, src, st, curr, done, n);
    FoundGraph(g, src, st, curr, done, n, hop);
    FoundRecords(src, st, curr, n, hop);
  }

  lemma SearchExpanded(g: Graph<Place>, src: int, st: LegalSearch, curr: Place, done: set<Place>)
    requires Searching(g, src, st, curr, done) && curr in g && g[curr] <= done
    ensures curr in st.d && Waiting(g, src, st, st.d[curr])
  {
    Finish(g, (src, false), st.d, st.q, curr, done);
  }

  /** `k` hops, first from `src` to `(hop, b)`, make a shortest legal route to `t`. */
  ghost predicate StartsVia(g: Graph<Place>, src: int, t: int, hop: int, k: int, b: bool, c: bool) {
    LegalDist(g, src, t, k) && Edge(g, (src, false), (hop, b)) && HasPath(g, (hop, b), (t, c), k - 1)
  }

  ghost predicate StartsShortestLegal(g: Graph<Place>, src: int, t: int, hop: int) {
    exists k, b, c :: StartsVia(g, src, t, hop, k, b, c)
  }

  /** `hop` is the first neighbour, in link order, that starts a shortest legal route. */
  ghost predicate FirstLegal(net: Network, levels: Levels, u: int, t: int, hop: int)
    requires net.Valid() && LevelsCover(net, levels) && net.IsRouter(u)
  {
    && StartsShortestLegal(UdGraph(net, levels), u, t, hop)
    && forall i :: 0 <= i < |net.adj[u]| && StartsShortestLegal(UdGraph(net, levels), u, t, net.adj[u][i]) ==>
         hop in net.adj[u] && IndexOf(net.adj[u], hop) <= i
  }

  /** What one source's search records: the first hop, in link order, of a shortest legal route to every
      router a legal route leads to. */
  ghost predicate LegalHops(net: Network, levels: Levels, src: int, hops: map<int, int>)
    requires net.Valid() && LevelsCover(net, levels) && net.IsRouter(src)
  {
    && src !in hops
    && (forall t :: t != src ==> (t in hops <==> HasLegalRoute(UdGraph(net, levels), src, t)))
    && (forall t :: t in hops ==> FirstLegal(net, levels, src, t, hops[t]))
  }

  /** The place a router was recorded through has the best hop of its closest places. */
  ghost predicate HopsFirst(st: LegalSearch, rank: Place -> int) {
    forall t, b :: t in st.hops && (t, b) in st.d ==> HopFirst(st, rank, t, b)
  }

  predicate HopFirst(st: LegalSearch, rank: Place -> int, t: int, b: bool)
    requires (t, b) in st.d
  {
    t in st.best && st.best[t] in st.d && st.best[t] in st.first && (t, b) in st.first && st.d[(t, b)] == st.d[st.best[t]] ==>
      rank(st.first[st.best[t]]) <= rank(st.first[(t, b)])
  }

  /** A router recorded now is recorded through the best of its closest places, which are all queued. */
  lemma RecordsFirst(g: Graph<Place>, src: int, st: LegalSearch, rank: Place -> int, t: int, b: bool)
    requires st.q != [] && st.q[0].0 == t && t != src && t !in st.hops && (t, b) in st.d
    requires OrderWaiting(g, (src, false), st.d, st.q, st.first, rank) && st.q[0] in st.d && st.q[0] in st.first
    requires st.d[(t, b)] == st.d[st.q[0]] && (t, b) in st.first
    requires forall s :: s in st.d && s !in st.q && s.0 != src ==> s.0 in st.hops
    ensures rank(st.first[st.q[0]]) <= rank(st.first[(t, b)])
  {
    assert (t, b) in st.q;
    var j :| 0 <= j < |st.q| && st.q[j] == (t, b);
    assert st.q != [(src, false)];
    if j > 0 {
      assert BfsOrder.InOrder(st.d, st.first, rank, st.q[0], st.q[j]);
    }
  }

  lemma DequeueKeepsFirst(g: Graph<Place>, src: int, st: LegalSearch, lo: int, rank: Place -> int)
    requires Waiting(g, src, st, lo) && st.queue != [] && st.q != [] && st.q[0] == (st.queue[0].0, st.queue[0].1)
    requires OrderWaiting(g, (src, false), st.d, st.q, st.first, rank) && HopsFirst(st, rank)
    ensures HopsFirst(Dequeued(src, st), rank)
  {
    var s, st' := st.q[0], Dequeued(src, st);
    forall t, b | t in st'.hops && (t, b) in st'.d ensures HopFirst(st', rank, t, b) {
      if t in st.hops {
        assert HopFirst(st, rank, t, b);
      } else if (t, b) in st.first && s in st.first && st.d[(t, b)] == st.d[s] {
        RecordsFirst(g, src, st, rank, t, b);
      }
    }
  }

  lemma FoundKeepsFirst(src: int, st: LegalSearch, curr: Place, n: Place, hop: Option<int>, rank: Place -> int)
    requires curr in st.d && n !in st.d && Recorded(src, st, st.d[curr]) && HopsFirst(st, rank)
    ensures HopsFirst(Found(src, st, curr, n, hop), rank)
  {
    var st' := Found(src, st, curr, n, hop);
    forall t, b | t in st'.hops && (t, b) in st'.d ensures HopFirst(st', rank, t, b) {
      assert BestOk(st, t, st.d[curr]);
      if (t, b) != n {
        assert HopFirst(st, rank, t, b);
      }
    }
  }

  lemma BestStarts(g: Graph<Place>, src: int, d: map<Place, int>, first: map<Place, Place>, t: int, s: Place)
    requires Distances(g, (src, false), d) && HopsOk(g, (src, false), d, first) && s in d && s.0 == t && t != src
    requires forall b :: (t, b) in d ==> d[s] <= d[(t, b)]
    ensures s in first && StartsShortestLegal(g, src, t, first[s].0) && HasLegalRoute(g, src, t)
  {
    HopIsShortest(g, (src, false), d, first, s);
    var h := first[s];
    assert s == (t, s.1) && h == (h.0, h.1);
    assert s.1 ==> s == (t, true);
    assert !s.1 ==> s == (t, false);
    assert Reachable(g, (src, false), (t, s.1));
    forall b, j | HasPath(g, (src, false), (t, b), j) ensures d[s] <= j {
      assert (t, b) in d;
    }
    assert StartsVia(g, src, t, h.0, d[s], h.1, s.1);
  }

  lemma LegalDistBounds(g: Graph<Place>, u: int, t: int, k: int, s: Place, j: int)
    requires LegalDist(g, u, t, k) && s.0 == t && HasPath(g, (u, false), s, j)
    ensures k <= j
  {
    var b := s.1;
    assert s == (t, b) && HasPath(g, (u, false), (t, b), j);
  }

  /** All closest places of `t` are as far as the one it is recorded through. */
  lemma ClosestPlaces(g: Graph<Place>, src: int, st: LegalSearch, t: int, h: int) returns (b: bool, c: bool)
    requires Distances(g, (src, false), st.d) && StartsShortestLegal(g, src, t, h) && t in st.best && st.best[t] in st.d
    requires st.best[t].0 == t && forall x :: (t, x) in st.d ==> st.d[st.best[t]] <= st.d[(t, x)]
    ensures (t, c) in st.d && st.d[(t, c)] == st.d[st.best[t]]
    ensures Edge(g, (src, false), (h, b)) && HasPath(g, (h, b), (t, c), st.d[(t, c)] - 1)
  {
    var k;
    k, b, c :| StartsVia(g, src, t, h, k, b, c);
    PrependHop(g, (src, false), (h, b), (t, c), k - 1);
    assert HasPath(g, (src, false), (t, c), k) && st.d[(t, c)] <= k;
    LegalDistBounds(g, src, t, k, (t, c), st.d[(t, c)]);
    LegalDistBounds(g, src, t, k, st.best[t], st.d[st.best[t]]);
    assert st.d[st.best[t]] <= st.d[(t, c)];
  }

  /** The hop of the recorded place is ranked first. */
  lemma RankBounds(g: Graph<Place>, src: int, st: LegalSearch, lo: int, rank: Place -> int, t: int, h: int)
    requires Waiting(g, src, st, lo) && st.q == [] && AllBest(g, (src, false), st.d, st.first, rank) && HopsFirst(st, rank)
    requires Distances(g, (src, false), st.d) && t in st.hops && StartsShortestLegal(g, src, t, h)
    ensures t in st.best && st.best[t] in st.first && exists b :: rank(st.first[st.best[t]]) <= rank((h, b))
  {
    assert BestOk(st, t, lo);
    var b, c := ClosestPlaces(g, src, st, t, h);
    assert BestAt(g, (src, false), st.d, st.first, rank, (t, c));
    assert HopFirst(st, rank, t, c);
    assert rank(st.first[st.best[t]]) <= rank((h, b));
  }

  lemma RecordedIsFirst(net: Network, levels: Levels, src: int, st: LegalSearch, lo: int, rank: Place -> int, t: int)
    requires net.Valid() && LevelsCover(net, levels) && net.IsRouter(src)
    requires Waiting(UdGraph(net, levels), src, st, lo) && st.q == [] && t in st.hops
    requires AllBest(UdGraph(net, levels), (src, false), st.d, st.first, rank) && HopsFirst(st, rank)
    requires Distances(UdGraph(net, levels), (src, false), st.d) && StartsShortestLegal(UdGraph(net, levels), src, t, st.hops[t])
    requires st.hops[t] in net.adj[src] && forall p :: rank(p) == LinkRank(net, src, p.0)
    ensures FirstLegal(net, levels, src, t, st.hops[t])
  {
    assert BestOk(st, t, lo);
    forall i | 0 <= i < |net.adj[src]| && StartsShortestLegal(UdGraph(net, levels), src, t, net.adj[src][i])
      ensures IndexOf(net.adj[src], st.hops[t]) <= i
    {
      RankBounds(UdGraph(net, levels), src, st, lo, rank, t, net.adj[src][i]);
      IndexIsLeast(net.adj[src], i);
    }
  }

  lemma HopIsNeighbour(net: Network, levels: Levels, u: int, t: int, hop: int)
    requires net.Valid() && LevelsCover(net, levels) && StartsShortestLegal(UdGraph(net, levels), u, t, hop)
    ensures hop in net.adj[u]
  {
    var k, b, c :| StartsVia(UdGraph(net, levels), u, t, hop, k, b, c);
    assert Legal(net, levels, (u, false), (hop, b));
  }

  lemma RecordedStarts(g: Graph<Place>, src: int, st: LegalSearch, lo: int)
    requires Waiting(g, src, st, lo) && st.queue == []
    ensures st.q == [] && src !in st.hops && Distances(g, (src, false), st.d)
    ensures forall t :: t in st.hops ==> StartsShortestLegal(g, src, t, st.hops[t])
    ensures forall t :: t != src ==> (t in st.hops <==> HasLegalRoute(g, src, t))
  {
    Done(g, (src, false), st.d);
    forall t | t in st.hops ensures StartsShortestLegal(g, src, t, st.hops[t]) && HasLegalRoute(g, src, t) {
      assert BestOk(st, t, lo);
      BestStarts(g, src, st.d, st.first, t, st.best[t]);
    }
    forall t | t != src && HasLegalRoute(g, src, t) ensures t in st.hops {
      var b :| Reachable(g, (src, false), (t, b));
      assert (t, b) in st.d;
    }
  }

  lemma LegalSearchDone(net: Network, levels: Levels, src: int, st: LegalSearch, lo: int, rank: Place -> int)
    requires net.Valid() && LevelsCover(net, levels) && net.IsRouter(src)
    requires Waiting(UdGraph(net, levels), src, st, lo) && st.queue == []
    requires AllBest(UdGraph(net, levels), (src, false), st.d, st.first, rank) && HopsFirst(st, rank)
    requires forall p :: rank(p) == LinkRank(net, src, p.0)
    ensures LegalHops(net, levels, src, st.hops)
  {
    RecordedStarts(UdGraph(net, levels), src, st, lo);
    forall t | t in st.hops ensures FirstLegal(net, levels, src, t, st.hops[t]) {
      HopIsNeighbour(net, levels, src, t, st.hops[t]);
      RecordedIsFirst(net, levels, src, st, lo, rank, t);
    }
  }

  predicate Knows(levels: Levels, s: Place, adj: seq<int>) {
    s.0 in levels && forall n :: n in adj ==> n in levels
  }

  /** The places that the first `j` neighbours of `s` lead to. */
  ghost function NextPlaces(levels: Levels, s: Place, adj: seq<int>, j: nat): (r: set<Place>)
    requires j <= |adj| && Knows(levels, s, adj)
    ensures forall k :: 0 <= k < j && !(s.1 && IsUp(levels, s.0, adj[k])) ==>
              (adj[k], s.1 || !IsUp(levels, s.0, adj[k])) in r
  {
    if j == 0 then {}
    else
      NextPlaces(levels, s, adj, j - 1) +
      if s.1 && IsUp(levels, s.0, adj[j - 1]) then {} else {(adj[j - 1], s.1 || !IsUp(levels, s.0, adj[j - 1]))}
  }

  /** The neighbours of a router give exactly the places next to `s`. */
  lemma PlacesOfAdj(net: Network, levels: Levels, s: Place)
    requires net.Valid() && LevelsCover(net, levels) && net.IsRouter(s.0)
    ensures var g, adj := UdGraph(net, levels), net.RouterAdj(s.0);
      && Knows(levels, s, adj) && s in g
      && g[s] <= NextPlaces(levels, s, adj, |adj|)
      && forall k :: 0 <= k < |adj| ==> AdjLegal(g, levels, s, adj[k])
  {
    var g, adj := UdGraph(net, levels), net.RouterAdj(s.0);
    assert s == (s.0, s.1);
    forall n | n in adj ensures n in levels {
      assert n in net.Routers(net.adj[s.0]);
    }
    forall t | t in g[s] ensures t in NextPlaces(levels, s, adj, |adj|) {
      assert Edge(g, s, t) && Legal(net, levels, s, t);
      assert t.0 in net.Routers(net.adj[s.0]);
      var k :| 0 <= k < |adj| && adj[k] == t.0;
      assert t == (adj[k], t.1);
    }
    forall k | 0 <= k < |adj| ensures AdjLegal(g, levels, s, adj[k]) {
      assert adj[k] in net.Routers(net.adj[s.0]);
      var t := (adj[k], s.1 || !IsUp(levels, s.0, adj[k]));
      assert !(s.1 && IsUp(levels, s.0, adj[k])) ==> Legal(net, levels, s, t);
    }
  }

  ghost predicate AdjLegal(g: Graph<Place>, levels: Levels, s: Place, n: int) {
    s.0 in levels && n in levels &&
    (!(s.1 && IsUp(levels, s.0, n)) ==>
       var t := (n, s.1 || !IsUp(levels, s.0, n));
       Edge(g, s, t) && t in g)
  }

  /** One neighbour of `curr` is looked at. */
  lemma NeighbourStep(g: Graph<Place>, levels: Levels, adj: seq<int>, src: int, curr: Place, hop: Option<int>,
                      st: LegalSearch, j: nat) returns (st': LegalSearch)
    requires Knows(levels, curr, adj) && j < |adj| && AdjLegal(g, levels, curr, adj[j])
    requires Searching(g, src, st, curr, NextPlaces(levels, curr, adj, j)) && hop == HopName(src, curr, st.first)
    ensures curr in st.d
    ensures
      var n := (adj[j], curr.1 || !IsUp(levels, curr.0, adj[j]));
      st' == if (curr.1 && IsUp(levels, curr.0, adj[j])) || n in st.d then st else Found(src, st, curr, n, hop)
    ensures
      var n := (adj[j], curr.1 || !IsUp(levels, curr.0, adj[j]));
      st'.d.Keys == st.d.Keys + if curr.1 && IsUp(levels, curr.0, adj[j]) then {} else {n}
    ensures Searching(g, src, st', curr, NextPlaces(levels, curr, adj, j + 1)) && hop == HopName(src, curr, st'.first)
  {
    var done := NextPlaces(levels, curr, adj, j);
    st' := st;
    if curr.1 && IsUp(levels, curr.0, adj[j]) {
      assert NextPlaces(levels, curr, adj, j + 1) == done;
    } else {
      var n := (adj[j], curr.1 || !IsUp(levels, curr.0, adj[j]));
      assert NextPlaces(levels, curr, adj, j + 1) == done + {n};
      if n in st.d {
        SearchSeen(g, src, st, curr, done, n);
      } else {
        SearchNew(g, src, st, curr, done, n, hop);
        st' := Found(src, st, curr, n, hop);
      }
    }
  }

  /** The place neighbour `n` of `curr` leads to. */
  function PlaceOf(levels: Levels, curr: Place, n: int): Place
    requires curr.0 in levels && n in levels
  {
    (n, curr.1 || !IsUp(levels, curr.0, n))
  }

  /** A neighbour is looked at: `state not in visited`. */
  ghost function Look(levels: Levels, src: int, st: LegalSearch, curr: Place, hop: Option<int>, n: int): (r: LegalSearch)
    requires curr.0 in levels && n in levels && curr in st.d
    ensures curr in r.d
  {
    if (curr.1 && IsUp(levels, curr.0, n)) || PlaceOf(levels, curr, n) in st.d then st
    else Found(src, st, curr, PlaceOf(levels, curr, n), hop)
  }

  ghost function LookAll(levels: Levels, src: int, st: LegalSearch, curr: Place, hop: Option<int>, adj: seq<int>, j: nat):
    (r: LegalSearch)
    requires Knows(levels, curr, adj) && curr in st.d && j <= |adj|
    ensures curr in r.d
  {
    if j == 0 then st else Look(levels, src, LookAll(levels, src, st, curr, hop, adj, j - 1), curr, hop, adj[j - 1])
  }

  /** The search after `k` neighbours. */
  ghost predicate SearchingAt(g: Graph<Place>, levels: Levels, adj: seq<int>, src: int, curr: Place, hop: Option<int>,
                              st: LegalSearch, k: int)
    requires Knows(levels, curr, adj) && curr in st.d && 0 <= k <= |adj|
  {
    var q := LookAll(levels, src, st, curr, hop, adj, k);
    Searching(g, src, q, curr, NextPlaces(levels, curr, adj, k)) && hop == HopName(src, curr, q.first)
  }

  lemma LookKeeps(g: Graph<Place>, levels: Levels, adj: seq<int>, src: int, curr: Place, hop: Option<int>, st: LegalSearch, k: nat)
    requires Knows(levels, curr, adj) && k < |adj| && AdjLegal(g, levels, curr, adj[k])
    requires curr in st.d && SearchingAt(g, levels, adj, src, curr, hop, st, k)
    ensures SearchingAt(g, levels, adj, src, curr, hop, st, k + 1)
  {
    var q := LookAll(levels, src, st, curr, hop, adj, k);
    assert LookAll(levels, src, st, curr, hop, adj, k + 1) == Look(levels, src, q, curr, hop, adj[k]);
    var r := NeighbourStep(g, levels, adj, src, curr, hop, q, k);
    assert r == Look(levels, src, q, curr, hop, adj[k]);
  }

  ghost predicate SearchingUpTo(g: Graph<Place>, levels: Levels, adj: seq<int>, src: int, curr: Place, hop: Option<int>,
                                st: LegalSearch, j: int)
    requires Knows(levels, curr, adj) && curr in st.d && 0 <= j <= |adj|
  {
    forall k :: 0 <= k <= j ==> SearchingAt(g, levels, adj, src, curr, hop, st, k)
  }

  lemma LookMore(g: Graph<Place>, levels: Levels, adj: seq<int>, src: int, curr: Place, hop: Option<int>, st: LegalSearch, j: nat)
    requires Knows(levels, curr, adj) && j < |adj| && AdjLegal(g, levels, curr, adj[j])
    requires curr in st.d && SearchingUpTo(g, levels, adj, src, curr, hop, st, j)
    ensures SearchingUpTo(g, levels, adj, src, curr, hop, st, j + 1)
  {
    forall k | 0 <= k <= j + 1 ensures SearchingAt(g, levels, adj, src, curr, hop, st, k) {
      if k > j {
        assert SearchingAt(g, levels, adj, src, curr, hop, st, j);
        LookKeeps(g, levels, adj, src, curr, hop, st, j);
      }
    }
  }

  lemma {:induction false} LookAllKeeps(g: Graph<Place>, levels: Levels, adj: seq<int>, src: int, curr: Place, hop: Option<int>,
                                        st: LegalSearch, j: nat)
    requires Knows(levels, curr, adj) && j <= |adj| && forall k :: 0 <= k < |adj| ==> AdjLegal(g, levels, curr, adj[k])
    requires curr in st.d && SearchingAt(g, levels, adj, src, curr, hop, st, 0)
    ensures SearchingUpTo(g, levels, adj, src, curr, hop, st, j)
  {
    if j > 0 {
      LookAllKeeps(g, levels, adj, src, curr, hop, st, j - 1);
      assert AdjLegal(g, levels, curr, adj[j - 1]);
      LookMore(g, levels, adj, src, curr, hop, st, j - 1);
    }
  }

  lemma {:induction false} LookAllGrows(levels: Levels, src: int, st: LegalSearch, curr: Place, hop: Option<int>, adj: seq<int>, j: nat)
    requires Knows(levels, curr, adj) && curr in st.d && j <= |adj|
    ensures var r := LookAll(levels, src, st, curr, hop, adj, j); r.hops == st.hops && (r == st || r.d.Keys > st.d.Keys)
  {
    if j > 0 {
      LookAllGrows(levels, src, st, curr, hop, adj, j - 1);
    }
  }

  /** The neighbours of the source are in the order of `rank`. */
  predicate RankedUp(adj: seq<int>, rank: Place -> int) {
    forall i, j, b, c :: 0 <= i <= j < |adj| ==> 0 <= rank((adj[i], b)) <= rank((adj[j], c))
  }

  function LastRanked(adj: seq<int>, rank: Place -> int, j: nat): int
    requires j <= |adj|
  {
    if j == 0 then -1 else rank((adj[j - 1], false))
  }
  /** The order of the hops, as far as one search has come. */
  ghost predicate SearchOrder(g: Graph<Place>, src: int, st: LegalSearch, curr: Place, rank: Place -> int, last: int) {
    OrderMid(g, (src, false), st.d, st.q, st.first, rank, curr, last) && HopsFirst(st, rank)
  }

  lemma FoundOrder(g: Graph<Place>, src: int, st: LegalSearch, curr: Place, done: set<Place>, n: Place, hop: Option<int>,
                   rank: Place -> int, last: int) returns (r: LegalSearch)
    requires Parts(g, src, st, curr, done) && n !in st.d && SearchOrder(g, src, st, curr, rank, last)
    requires curr == (src, false) ==> last <= rank(n)
    ensures r == Found(src, st, curr, n, hop) && SearchOrder(g, src, r, curr, rank, rank(n))
  {
    r := Found(src, st, curr, n, hop);
    FoundKeepsFirst(src, st, curr, n, hop, rank);
    OrderDiscover(g, (src, false), st.d, st.q, st.first, rank, curr, done, last, n);
    assert r.first == st.first[n := if curr == (src, false) then n else st.first[curr]];
  }

  lemma SearchingParts(g: Graph<Place>, src: int, st: LegalSearch, curr: Place, done: set<Place>)
    requires Searching(g, src, st, curr, done)
    ensures Parts(g, src, st, curr, done)
  {
  }

  lemma LastMayGrow(g: Graph<Place>, src: int, st: LegalSearch, curr: Place, rank: Place -> int, last: int, next: int)
    requires SearchOrder(g, src, st, curr, rank, last) && (curr == (src, false) ==> last <= next)
    ensures SearchOrder(g, src, st, curr, rank, next)
  {
  }

  /** What the order lemmas need to know of a search under way. */
  ghost predicate Parts(g: Graph<Place>, src: int, q: LegalSearch, curr: Place, done: set<Place>) {
    && Mid(g, (src, false), q.d, q.q, curr, done) && curr in q.d && Recorded(src, q, q.d[curr])
    && (curr != (src, false) ==> curr in q.first)
  }

  lemma {:induction false} LookAllOrder(g: Graph<Place>, levels: Levels, adj: seq<int>, src: int, curr: Place, hop: Option<int>,
                                        st: LegalSearch, rank: Place -> int, j: nat) returns (q: LegalSearch)
    requires Knows(levels, curr, adj) && curr in st.d && j <= |adj|
    requires forall k :: 0 <= k <= |adj| ==> PartsAt(g, levels, adj, src, curr, hop, st, k)
    requires SearchOrder(g, src, st, curr, rank, -1) && (curr == (src, false) ==> RankedUp(adj, rank))
    ensures q == LookAll(levels, src, st, curr, hop, adj, j) && SearchOrder(g, src, q, curr, rank, LastRanked(adj, rank, j))
  {
    q := st;
    if j > 0 {
      var p := LookAllOrder(g, levels, adj, src, curr, hop, st, rank, j - 1);
      assert PartsAt(g, levels, adj, src, curr, hop, st, j - 1);
      q := LookOrder(g, levels, src, p, curr, NextPlaces(levels, curr, adj, j - 1), hop, adj[j - 1], rank,
                     LastRanked(adj, rank, j - 1), LastRanked(adj, rank, j));
    }
  }

  ghost predicate PartsAt(g: Graph<Place>, levels: Levels, adj: seq<int>, src: int, curr: Place, hop: Option<int>,
                          st: LegalSearch, k: int)
    requires Knows(levels, curr, adj) && curr in st.d && 0 <= k <= |adj|
  {
    Parts(g, src, LookAll(levels, src, st, curr, hop, adj, k), curr, NextPlaces(levels, curr, adj, k))
  }

  lemma LookOrder(g: Graph<Place>, levels: Levels, src: int, q: LegalSearch, curr: Place, done: set<Place>, hop: Option<int>,
                  n: int, rank: Place -> int, last: int, next: int) returns (r: LegalSearch)
    requires Parts(g, src, q, curr, done) && curr.0 in levels && n in levels && SearchOrder(g, src, q, curr, rank, last)
    requires curr == (src, false) ==> last <= next && forall b :: rank((n, b)) == next
    ensures r == Look(levels, src, q, curr, hop, n) && SearchOrder(g, src, r, curr, rank, next)
  {
    var place := PlaceOf(levels, curr, n);
    if (curr.1 && IsUp(levels, curr.0, n)) || place in q.d {
      r := q;
      LastMayGrow(g, src, q, curr, rank, last, next);
    } else {
      r := FoundOrder(g, src, q, curr, done, place, hop, rank, last);
      LastMayGrow(g, src, r, curr, rank, rank(place), next);
    }
  }

  /** The inner `for`: the neighbours of one dequeued place. */
  method ExpandPlace(levels: Levels, adj: seq<int>, src: int, curr: Place, hop: Option<int>, visited: set<Place>,
                     queue: seq<QueueEntry>, ghost st: LegalSearch)
    returns (visited': set<Place>, queue': seq<QueueEntry>)
    requires Knows(levels, curr, adj) && curr in st.d && visited == st.d.Keys && queue == st.queue
    ensures
      var r := LookAll(levels, src, st, curr, hop, adj, |adj|);
      visited' == r.d.Keys && queue' == r.queue
  {
    visited', queue' := visited, queue;
    for j := 0 to |adj|
      invariant
        var r := LookAll(levels, src, st, curr, hop, adj, j);
        visited' == r.d.Keys && queue' == r.queue
    {
      var goingUp := IsUp(levels, curr.0, adj[j]);
      if !(curr.1 && goingUp) {
        var state := (adj[j], curr.1 || !goingUp);
        if state !in visited' {
          visited' := visited' + {state};
          queue' := queue' + [(adj[j], state.1, if hop.None? then Some(adj[j]) else hop)];
        }
      }
    }
  }

  /** Between two dequeues: exact distances, recorded hops, and their order. */
  ghost predicate Waits(g: Graph<Place>, src: int, st: LegalSearch, lo: int, rank: Place -> int) {
    && Waiting(g, src, st, lo) && OrderWaiting(g, (src, false), st.d, st.q, st.first, rank) && HopsFirst(st, rank)
  }

  lemma WaitsStart(g: Graph<Place>, src: int, rank: Place -> int)
    requires (src, false) in g
    ensures Waits(g, src, InitSearch(src), 0, rank)
  {
    SearchStart(g, src);
  }

  /** One turn of the outer loop up to the neighbours. */
  lemma WaitsDequeue(g: Graph<Place>, src: int, st: LegalSearch, lo: int, rank: Place -> int)
    requires Waits(g, src, st, lo, rank) && st.queue != []
    ensures st.q != [] && st.q[0] == (st.queue[0].0, st.queue[0].1)
    ensures st.queue[0].2 == HopName(src, st.q[0], st.first) && (st.q[0].0 != src ==> st.queue[0].2.Some?)
    ensures Searching(g, src, Dequeued(src, st), st.q[0], {}) && SearchOrder(g, src, Dequeued(src, st), st.q[0], rank, -1)
  {
    SearchDequeue(g, src, st, lo);
    OrderDequeue(g, (src, false), st.d, st.q, st.first, rank, -1);
    DequeueKeepsFirst(g, src, st, lo, rank);
  }

  /** All neighbours have been looked at. */
  lemma WaitsAgain(g: Graph<Place>, levels: Levels, adj: seq<int>, src: int, curr: Place, hop: Option<int>, st: LegalSearch,
                   rank: Place -> int, r: LegalSearch)
    requires Knows(levels, curr, adj) && forall k :: 0 <= k < |adj| ==> AdjLegal(g, levels, curr, adj[k])
    requires curr in st.d && Searching(g, src, st, curr, {}) && hop == HopName(src, curr, st.first)
    requires SearchOrder(g, src, st, curr, rank, -1) && (curr == (src, false) ==> RankedUp(adj, rank))
    requires curr in g && g[curr] <= NextPlaces(levels, curr, adj, |adj|)
    requires r == LookAll(levels, src, st, curr, hop, adj, |adj|)
    ensures curr in r.d && Waits(g, src, r, r.d[curr], rank) && r.hops == st.hops && (r == st || r.d.Keys > st.d.Keys)
  {
    LookAllKeeps(g, levels, adj, src, curr, hop, st, |adj|);
    LookAllGrows(levels, src, st, curr, hop, adj, |adj|);
    forall k | 0 <= k <= |adj| ensures PartsAt(g, levels, adj, src, curr, hop, st, k) {
      assert SearchingAt(g, levels, adj, src, curr, hop, st, k);
      SearchingParts(g, src, LookAll(levels, src, st, curr, hop, adj, k), curr, NextPlaces(levels, curr, adj, k));
    }
    var _ := LookAllOrder(g, levels, adj, src, curr, hop, st, rank, |adj|);
    assert SearchingAt(g, levels, adj, src, curr, hop, st, |adj|);
    SearchExpanded(g, src, r, curr, NextPlaces(levels, curr, adj, |adj|));
    OrderFinish(g, (src, false), r.d, r.q, r.first, rank, curr, NextPlaces(levels, curr, adj, |adj|), LastRanked(adj, rank, |adj|));
  }

  lemma AdjRanksUp(net: Network, u: int, rank: Place -> int)
    requires net.Valid() && net.IsRouter(u) && forall p :: rank(p) == LinkRank(net, u, p.0)
    ensures RankedUp(net.RouterAdj(u), rank)
  {
    var adj := net.RouterAdj(u);
    forall i, j, b, c | 0 <= i <= j < |adj| ensures 0 <= rank((adj[i], b)) <= rank((adj[j], c)) {
      if i < j {
        RoutersInOrder(net, net.adj[u]);
        assert Before(net.adj[u], adj, i, j);
      }
    }
  }

  lemma PlacesInGraph(g: Graph<Place>, src: int, st: LegalSearch, lo: int)
    requires Waiting(g, src, st, lo)
    ensures st.d.Keys <= g.Keys && |st.q| == |st.queue| && forall s :: s in st.q ==> s in g
  {
  }

  /** One turn of the outer loop: what is left to find shrinks, or else the queue does. */
  lemma Turn(net: Network, levels: Levels, src: int, st: LegalSearch, lo: int, rank: Place -> int, curr: Place, hop: Option<int>)
    returns (r: LegalSearch)
    requires net.Valid() && LevelsCover(net, levels) && net.IsRouter(src) && RankedUp(net.RouterAdj(src), rank)
    requires Waits(UdGraph(net, levels), src, st, lo, rank) && st.queue != [] && st.queue[0] == (curr.0, curr.1, hop)
    ensures curr in Dequeued(src, st).d && net.IsRouter(curr.0) && Knows(levels, curr, net.RouterAdj(curr.0))
    ensures curr.0 != src ==> hop.Some?
    ensures r == LookAll(levels, src, Dequeued(src, st), curr, hop, net.RouterAdj(curr.0), |net.RouterAdj(curr.0)|)
    ensures curr in r.d && Waits(UdGraph(net, levels), src, r, r.d[curr], rank) && r.hops == Dequeued(src, st).hops
    ensures UdGraph(net, levels).Keys - r.d.Keys < UdGraph(net, levels).Keys - st.d.Keys || r == Dequeued(src, st)
  {
    var g := UdGraph(net, levels);
    PlacesInGraph(g, src, st, lo);
    WaitsDequeue(g, src, st, lo, rank);
    PlacesOfAdj(net, levels, curr);
    r := LookAll(levels, src, Dequeued(src, st), curr, hop, net.RouterAdj(curr.0), |net.RouterAdj(curr.0)|);
    WaitsAgain(g, levels, net.RouterAdj(curr.0), src, curr, hop, Dequeued(src, st), rank, r);
    PlacesInGraph(g, src, r, r.d[curr]);
    if r != Dequeued(src, st) {
      FewerLeft(g.Keys, st.d.Keys, r.d.Keys);
    }
  }

  lemma FewerLeft<T>(all: set<T>, found: set<T>, found': set<T>)
    requires found < found' <= all
    ensures all - found' < all - found
  {
    var x :| x in found' && x !in found;
    assert x in all - found && x !in all - found';
  }

  method SearchUpDown(net: Network, levels: Levels, src: int) returns (hops: map<int, int>)
    requires net.Valid() && LevelsCover(net, levels) && net.IsRouter(src)
    ensures LegalHops(net, levels, src, hops)
  {
    ghost var g := UdGraph(net, levels);
    ghost var rank := (p: Place) => LinkRank(net, src, p.0);
    ghost var st := InitSearch(src);
    ghost var lo := 0;
    hops := map[];
    var visited := {(src, false)};
    var queue: seq<QueueEntry> := [(src, false, None)];
    AdjRanksUp(net, src, rank);
    WaitsStart(g, src, rank);
    while queue != []
      invariant Waits(g, src, st, lo, rank)
      invariant hops == st.hops && visited == st.d.Keys && queue == st.queue
      decreases g.Keys - st.d.Keys, |queue|
    {
      var u, gone, hop := queue[0].0, queue[0].1, queue[0].2;
      var curr := (u, gone);
      ghost var next := Turn(net, levels, src, st, lo, rank, curr, hop);
      st := Dequeued(src, st);
      if u != src && u !in hops {
        hops := hops[u := hop.value];
      }
      queue := queue[1..];
      visited, queue := ExpandPlace(levels, net.RouterAdj(u), src, curr, hop, visited, queue, st);
      st, lo := next, next.d[curr];
    }
    LegalSearchDone(net, levels, src, st, lo, rank);
  }

  ghost predicate TreeLevels(net: Network, levels: Levels, root: int)
    requires net.Valid()
  {
    && LevelsCover(net, levels) && net.IsRouter(root)
    && forall u {:trigger AtLevel(net, levels, root, u)} :: u in levels ==> AtLevel(net, levels, root, u)
  }

  ghost predicate AtLevel(net: Network, levels: Levels, root: int, u: int)
    requires net.Valid() && u in levels
  {
    Dist(RouterGraph(net), root, u, levels[u])
  }

  ghost predicate ParentEdge(net: Network, levels: Levels, u: int, w: int)
    requires net.Valid() && LevelsCover(net, levels)
  {
    && w in net.routers && u in levels && w in levels && 0 <= levels[w] == levels[u] - 1
    && Edge(UdGraph(net, levels), (u, false), (w, false))
    && Edge(UdGraph(net, levels), (w, false), (u, true)) && Edge(UdGraph(net, levels), (w, true), (u, true))
  }

  /** The router one level closer to the root, through which the BFS found `u`. */
  lemma Parent(net: Network, levels: Levels, root: int, u: int) returns (w: int)
    requires net.Valid() && TreeLevels(net, levels, root) && net.IsRouter(u) && u != root
    ensures ParentEdge(net, levels, u, w)
  {
    var g := RouterGraph(net);
    assert AtLevel(net, levels, root, u);
    assert HasPath(g, root, u, levels[u]) && levels[u] > 0;
    w :| HasPath(g, root, w, levels[u] - 1) && Edge(g, w, u);
    RouterEdges(net);
    assert AtLevel(net, levels, root, w);
    AppendHop(g, root, w, u, levels[w]);
    assert Legal(net, levels, (u, false), (w, false));
    assert Legal(net, levels, (w, false), (u, true)) && Legal(net, levels, (w, true), (u, true));
  }

  ghost predicate Parented(net: Network, levels: Levels, root: int, parent: map<int, int>, n: nat)
    requires net.Valid() && LevelsCover(net, levels) && n <= |net.routers|
  {
    && (forall k :: 0 <= k < n && net.routers[k] != root ==> net.routers[k] in parent)
    && (forall u {:trigger parent[u]} :: u in parent ==> u != root && ParentEdge(net, levels, u, parent[u]))
  }

  /** A spanning tree: each router but the root, with its parent. */
  ghost predicate TreeOk(g: Graph<Place>, levels: Levels, root: int, parent: map<int, int>) {
    && root in levels && levels[root] == 0 && root !in parent
    && forall u {:trigger parent[u]} :: u in parent ==> TreeEdge(g, levels, root, parent, u, parent[u])
  }

  ghost predicate TreeEdge(g: Graph<Place>, levels: Levels, root: int, parent: map<int, int>, u: int, w: int) {
    && u in levels && w in levels && 0 <= levels[w] == levels[u] - 1 && (w == root || w in parent)
    && Edge(g, (u, false), (w, false)) && Edge(g, (w, false), (u, true)) && Edge(g, (w, true), (u, true))
  }

  lemma ParentedOneMore(net: Network, levels: Levels, root: int, parent: map<int, int>, n: nat, w: int)
    requires net.Valid() && LevelsCover(net, levels) && n < |net.routers| && Parented(net, levels, root, parent, n)
    requires net.routers[n] != root && ParentEdge(net, levels, net.routers[n], w)
    ensures Parented(net, levels, root, parent[net.routers[n] := w], n + 1)
  {
  }

  ghost predicate HasParent(net: Network, levels: Levels, root: int, u: int)
    requires net.Valid() && LevelsCover(net, levels)
  {
    u != root ==> exists w :: ParentEdge(net, levels, u, w)
  }

  lemma AllHaveParents(net: Network, levels: Levels, root: int)
    requires net.Valid() && TreeLevels(net, levels, root)
    ensures forall u {:trigger HasParent(net, levels, root, u)} :: net.IsRouter(u) ==> HasParent(net, levels, root, u)
  {
    forall u | net.IsRouter(u) ensures HasParent(net, levels, root, u) {
      if u != root {
        var w := Parent(net, levels, root, u);
      }
    }
  }

  lemma {:induction false} SpanningTree(net: Network, levels: Levels, root: int, n: nat) returns (parent: map<int, int>)
    requires net.Valid() && LevelsCover(net, levels) && n <= |net.routers|
    requires forall u {:trigger HasParent(net, levels, root, u)} :: net.IsRouter(u) ==> HasParent(net, levels, root, u)
    ensures Parented(net, levels, root, parent, n)
  {
    if n == 0 {
      parent := map[];
    } else {
      parent := SpanningTree(net, levels, root, n - 1);
      assert HasParent(net, levels, root, net.routers[n - 1]);
      if net.routers[n - 1] != root {
        var w :| ParentEdge(net, levels, net.routers[n - 1], w);
        ParentedOneMore(net, levels, root, parent, n - 1, w);
        parent := parent[net.routers[n - 1] := w];
      }
    }
  }

  lemma TreeFromLevels(net: Network, levels: Levels, root: int) returns (parent: map<int, int>)
    requires net.Valid() && TreeLevels(net, levels, root)
    ensures TreeOk(UdGraph(net, levels), levels, root, parent)
    ensures forall u :: net.IsRouter(u) ==> u in parent || u == root
  {
    assert HasPath(RouterGraph(net), root, root, 0);
    assert AtLevel(net, levels, root, root);
    AllHaveParents(net, levels, root);
    parent := SpanningTree(net, levels, root, |net.routers|);
    ParentedIsTree(net, levels, root, parent);
  }

  lemma ParentedIsTree(net: Network, levels: Levels, root: int, parent: map<int, int>)
    requires net.Valid() && LevelsCover(net, levels) && net.IsRouter(root) && levels[root] == 0
    requires Parented(net, levels, root, parent, |net.routers|)
    ensures TreeOk(UdGraph(net, levels), levels, root, parent)
    ensures forall u :: net.IsRouter(u) ==> u in parent || u == root
  {
  }

  lemma {:induction false} UpToRoot(g: Graph<Place>, levels: Levels, root: int, parent: map<int, int>, u: int, level: int)
    requires TreeOk(g, levels, root, parent) && (u == root || u in parent) && u in levels && level == levels[u]
    ensures HasPath(g, (u, false), (root, false), level)
    decreases if u == root then 0 else 1 + level
  {
    if u != root {
      var w := parent[u];
      UpToRoot(g, levels, root, parent, w, level - 1);
      PrependHop(g, (u, false), (w, false), (root, false), level - 1);
    }
  }

  lemma {:induction false} DownFromRoot(g: Graph<Place>, levels: Levels, root: int, parent: map<int, int>, t: int, level: int)
    returns (b: bool)
    requires TreeOk(g, levels, root, parent) && (t == root || t in parent) && t in levels && level == levels[t]
    ensures HasPath(g, (root, false), (t, b), level)
    decreases if t == root then 0 else 1 + level
  {
    b := false;
    if t != root {
      var w := parent[t];
      var c := DownFromRoot(g, levels, root, parent, w, level - 1);
      b := true;
      AppendHop(g, (root, false), (w, c), (t, b), level - 1);
    }
  }

  /** Up to the root and down again is always legal: no pair of routers is left without a route. */
  lemma AlwaysLegalRoute(net: Network, levels: Levels, root: int, u: int, t: int)
    requires net.Valid() && TreeLevels(net, levels, root) && net.IsRouter(u) && net.IsRouter(t)
    ensures HasLegalRoute(UdGraph(net, levels), u, t)
  {
    var g := UdGraph(net, levels);
    var parent := TreeFromLevels(net, levels, root);
    UpToRoot(g, levels, root, parent, u, levels[u]);
    var b := DownFromRoot(g, levels, root, parent, t, levels[t]);
    PathTransitive(g, (u, false), (root, false), (t, b), levels[u], levels[t]);
    assert Reachable(g, (u, false), (t, b));
  }

  /** Length of the shortest legal route, 0 where there is none. */
  ghost function LegalDistance(g: Graph<Place>, u: int, t: int): nat {
    if exists k: nat :: LegalDist(g, u, t, k) then
      var k: nat :| LegalDist(g, u, t, k);
      k
    else 0
  }

  lemma {:induction false} ShortestLegalExists(g: Graph<Place>, u: int, t: int, b: bool, k: int)
    requires HasPath(g, (u, false), (t, b), k)
    ensures LegalDistance(g, u, t) <= k && LegalDist(g, u, t, LegalDistance(g, u, t))
    decreases k
  {
    if forall c, j :: HasPath(g, (u, false), (t, c), j) ==> k <= j {
      assert b ==> (t, b) == (t, true);
      assert !b ==> (t, b) == (t, false);
      assert LegalDist(g, u, t, k);
      var n: nat := k;
      assert LegalDist(g, u, t, n);
    } else {
      var c, j :| HasPath(g, (u, false), (t, c), j) && j < k;
      ShortestLegalExists(g, u, t, c, j);
    }
  }

  /** The recorded hop strictly decreases the legal distance, although the next router forgets
      whether the packet has gone down. */
  lemma HopGetsCloser(net: Network, levels: Levels, u: int, t: int, hop: int)
    requires net.Valid() && LevelsCover(net, levels)
    requires StartsShortestLegal(UdGraph(net, levels), u, t, hop)
    ensures net.IsRouter(hop) && hop in net.adj[u] && net.IsRouter(u)
    ensures LegalDistance(UdGraph(net, levels), hop, t) < LegalDistance(UdGraph(net, levels), u, t)
  {
    var g := UdGraph(net, levels);
    var k, b, c :| StartsVia(g, u, t, hop, k, b, c);
    var d := Forget(net, levels, hop, b, (t, c), k - 1);
    ShortestLegalExists(g, hop, t, d, k - 1);
    if HasPath(g, (u, false), (t, false), k) {
      ShortestLegalExists(g, u, t, false, k);
    } else {
      ShortestLegalExists(g, u, t, true, k);
    }
  }

  ghost predicate UpDownHops(net: Network, levels: Levels, first: FirstHops)
    requires net.Valid() && LevelsCover(net, levels)
  {
    forall u :: net.IsRouter(u) ==> u in first && LegalHops(net, levels, u, first[u])
  }

  /** Every table entry is the next router of a shortest legal route, or the NI where it hangs off the router. */
  ghost predicate TablesStartLegal(net: Network, levels: Levels, tables: Tables)
    requires net.Valid() && LevelsCover(net, levels)
  {
    && NisLinkedOnce(net)
    && forall u, ni :: net.IsRouter(u) && net.IsNi(ni) ==> StartsLegal(net, levels, tables, u, ni)
  }

  ghost predicate StartsLegal(net: Network, levels: Levels, tables: Tables, u: int, ni: int)
    requires net.Valid() && LevelsCover(net, levels) && net.IsNi(ni) && net.NiRouter(ni).Ok?
  {
    && HasHop(tables, u, ni)
    && if Target(net, ni) == u then tables[u][ni] == ni
       else StartsShortestLegal(UdGraph(net, levels), u, Target(net, ni), tables[u][ni])
  }

  lemma UpDownDescends(net: Network, levels: Levels, tables: Tables, dst: int) returns (measure: int -> nat)
    requires net.Valid() && LevelsCover(net, levels) && TablesStartLegal(net, levels, tables) && net.IsNi(dst)
    ensures Descends(net, tables, dst, measure)
  {
    var g, t := UdGraph(net, levels), Target(net, dst);
    NiRouterIsRouter(net, dst);
    measure := u => LegalDistance(g, u, t);
    forall u | net.IsRouter(u)
      ensures
        && HasHop(tables, u, dst) && Hop(net, tables, dst, u, tables[u][dst])
        && (tables[u][dst] == dst || (net.IsRouter(tables[u][dst]) && measure(tables[u][dst]) < measure(u)))
    {
      assert StartsLegal(net, levels, tables, u, dst);
      if u != t {
        HopGetsCloser(net, levels, u, t, tables[u][dst]);
      }
    }
  }

  /** Tables whose entries start shortest legal routes deliver every packet. */
  lemma UpDownDelivers(net: Network, levels: Levels, tables: Tables)
    requires net.Valid() && LevelsCover(net, levels) && TablesStartLegal(net, levels, tables)
    ensures AllDeliver(net, tables)
  {
    AllPairsExact(net.nis);
    forall s, d | (s, d) in AllPairs(net.nis) ensures exists p :: Delivered(net, tables, s, d, p) {
      var measure := UpDownDescends(net, levels, tables, d);
      var p := DeliverOne(net, tables, s, d, measure);
    }
  }

  lemma HopsStartLegal(net: Network, levels: Levels, first: FirstHops, tables: Tables)
    requires net.Valid() && LevelsCover(net, levels) && UpDownHops(net, levels, first)
    requires TablesOf(net, first, tables)
    ensures TablesStartLegal(net, levels, tables)
  {
    forall u, ni | net.IsRouter(u) && net.IsNi(ni) ensures StartsLegal(net, levels, tables, u, ni) {
      assert Entry(net, first, tables[u], u, ni);
    }
  }

  /** Every table entry towards another router is the first neighbour, in link order, that starts a
      shortest legal route. */
  ghost predicate TablesFirstLegal(net: Network, levels: Levels, tables: Tables)
    requires net.Valid() && LevelsCover(net, levels)
  {
    forall u, ni :: net.IsRouter(u) && net.IsNi(ni) && net.NiRouter(ni).Ok? && Target(net, ni) != u ==>
      HasHop(tables, u, ni) && FirstLegal(net, levels, u, Target(net, ni), tables[u][ni])
  }

  lemma HopsAreFirst(net: Network, levels: Levels, first: FirstHops, tables: Tables)
    requires net.Valid() && LevelsCover(net, levels) && UpDownHops(net, levels, first) && TablesOf(net, first, tables)
    ensures TablesFirstLegal(net, levels, tables)
  {
    forall u, ni | net.IsRouter(u) && net.IsNi(ni) && net.NiRouter(ni).Ok? && Target(net, ni) != u
      ensures HasHop(tables, u, ni) && FirstLegal(net, levels, u, Target(net, ni), tables[u][ni])
    {
      assert Entry(net, first, tables[u], u, ni);
    }
  }

  lemma AllReachedLegally(net: Network, levels: Levels, root: int, first: FirstHops)
    requires net.Valid() && TreeLevels(net, levels, root) && UpDownHops(net, levels, first)
    ensures AllReached(net, first)
  {
    forall src, ni | net.IsRouter(src) && net.IsNi(ni) && net.NiRouter(ni).Ok?
      ensures src in first && (Target(net, ni) == src || Target(net, ni) in first[src])
    {
      NiRouterIsRouter(net, ni);
      AlwaysLegalRoute(net, levels, root, src, Target(net, ni));
    }
  }

  /** `_up_down_first_hops` */
  method UpDownFirstHops(net: Network, levels: Levels) returns (first: FirstHops)
    requires net.Valid() && LevelsCover(net, levels)
    ensures UpDownHops(net, levels, first)
  {
    first := map[];
    for i := 0 to |net.routers|
      invariant forall k :: 0 <= k < i ==>
        net.routers[k] in first && LegalHops(net, levels, net.routers[k], first[net.routers[k]])
    {
      var hops := SearchUpDown(net, levels, net.routers[i]);
      first := first[net.routers[i] := hops];
    }
  }

  /** `up_down`: never refuses a network connected to the root; every table entry starts a shortest
      legal route, and every packet is delivered. */
  method UpDownTables(net: Network, root: Option<int>) returns (r: Result<Tables, GenError>, ghost levels: Levels)
    requires net.Valid() && net.routers != [] && (root.Some? ==> net.IsRouter(root.value))
    ensures
      var from := if root.Some? then root.value else net.routers[|net.routers| / 2];
      && (r.Ok? ==> TreeLevels(net, levels, from))
      && (r.Ok? <==> NisLinkedOnce(net) && forall u :: net.IsRouter(u) ==> Reachable(RouterGraph(net), from, u))
    ensures r.Ok? ==> TablesStartLegal(net, levels, r.value) && AllDeliver(net, r.value)
    ensures r.Ok? ==> TablesFirstLegal(net, levels, r.value)
  {
    var from := if root.Some? then root.value else net.routers[|net.routers| / 2];
    var tree := BfsLevels(net, from);
    if tree.Err? {
      levels := map[];
      return Err(tree.error), levels;
    }
    levels := tree.value;
    var first := UpDownFirstHops(net, tree.value);
    AllReachedLegally(net, levels, from, first);
    r := TablesFromFirstHops(net, first);
    if r.Ok? {
      HopsStartLegal(net, levels, first, r.value);
      HopsAreFirst(net, levels, first, r.value);
      UpDownDelivers(net, levels, r.value);
    }
  }

  /** A path of routers that never goes up after going down. */
  ghost predicate LegalRoute(net: Network, levels: Levels, p: seq<int>)
    requires net.Valid() && LevelsCover(net, levels)
  {
    && p != [] && (forall i :: 0 <= i < |p| ==> net.IsRouter(p[i]))
    && (forall i :: 0 <= i < |p| - 1 ==> p[i + 1] in net.adj[p[i]])
    && forall i, j :: 0 <= i < j < |p| - 1 && GoesDown(levels, p, i) ==> GoesDown(levels, p, j)
  }

  predicate GoesDown(levels: Levels, p: seq<int>, i: int) {
    0 <= i < |p| - 1 && p[i] in levels && p[i + 1] in levels && !IsUp(levels, p[i], p[i + 1])
  }

  /** The search space is right: its paths are exactly the legal routes. */
  lemma {:induction false} RouteIsPath(net: Network, levels: Levels, p: seq<int>)
    requires net.Valid() && LevelsCover(net, levels) && LegalRoute(net, levels, p)
    ensures HasPath(UdGraph(net, levels), (p[0], false), (p[|p| - 1], exists i :: GoesDown(levels, p, i)), |p| - 1)
    decreases |p|
  {
    if |p| > 1 {
      var n := |p| - 1;
      var q := p[..n];
      forall i | 0 <= i < |q| - 1 ensures GoesDown(levels, q, i) <==> GoesDown(levels, p, i) {
      }
      RouteIsPath(net, levels, q);
      var b, c := exists i :: GoesDown(levels, q, i), exists i :: GoesDown(levels, p, i);
      if b {
        var i :| GoesDown(levels, q, i);
        assert GoesDown(levels, p, i) && GoesDown(levels, p, n - 1);
      }
      if c {
        var i :| GoesDown(levels, p, i);
        assert i < n - 1 ==> GoesDown(levels, q, i);
      }
      assert c <==> b || GoesDown(levels, p, n - 1);
      assert Legal(net, levels, (p[n - 1], b), (p[n], c));
    }
  }

  lemma GoesDownPrefix(levels: Levels, q: seq<int>, n: int, i: int)
    requires q != [] && i < |q| - 1
    ensures GoesDown(levels, q, i) <==> GoesDown(levels, q + [n], i)
  {
  }

  lemma ExtendLegal(net: Network, levels: Levels, q: seq<int>, w: Place, t: Place)
    requires net.Valid() && LevelsCover(net, levels) && LegalRoute(net, levels, q)
    requires q[|q| - 1] == w.0 && (w.1 <==> exists i :: GoesDown(levels, q, i)) && Legal(net, levels, w, t)
    ensures LegalRoute(net, levels, q + [t.0])
  {
    var p, k := q + [t.0], |q|;
    forall i, j | 0 <= i < j < k && GoesDown(levels, p, i) ensures GoesDown(levels, p, j) {
      GoesDownPrefix(levels, q, t.0, i);
      if j < k - 1 {
        GoesDownPrefix(levels, q, t.0, j);
      }
    }
  }

  lemma ExtendGone(net: Network, levels: Levels, q: seq<int>, w: Place, t: Place)
    requires net.Valid() && LevelsCover(net, levels)
    requires q != [] && q[|q| - 1] == w.0 && (w.1 <==> exists i :: GoesDown(levels, q, i)) && Legal(net, levels, w, t)
    ensures t.1 <==> exists i :: GoesDown(levels, q + [t.0], i)
  {
    var p, k := q + [t.0], |q|;
    assert GoesDown(levels, p, k - 1) <==> !IsUp(levels, w.0, t.0);
    forall i | i < k - 1 ensures GoesDown(levels, q, i) <==> GoesDown(levels, p, i) {
      GoesDownPrefix(levels, q, t.0, i);
    }
  }

  lemma {:induction false} PathIsRoute(net: Network, levels: Levels, u: int, t: Place, k: int) returns (p: seq<int>)
    requires net.Valid() && LevelsCover(net, levels) && net.IsRouter(u)
    requires HasPath(UdGraph(net, levels), (u, false), t, k)
    ensures LegalRoute(net, levels, p) && |p| == k + 1 && p[0] == u && p[k] == t.0
    ensures t.1 <==> exists i :: GoesDown(levels, p, i)
    decreases k
  {
    if k == 0 {
      p := [u];
    } else {
      var w :| HasPath(UdGraph(net, levels), (u, false), w, k - 1) && Edge(UdGraph(net, levels), w, t);
      var q := PathIsRoute(net, levels, u, w, k - 1);
      ExtendLegal(net, levels, q, w, t);
      ExtendGone(net, levels, q, w, t);
      p := q + [t.0];
    }
  }

  /** A route as `check_routes` returns it, legal between its two NIs. */
  ghost predicate LegalNiRoute(net: Network, levels: Levels, r: Route)
    requires net.Valid() && LevelsCover(net, levels)
  {
    |r| >= 3 && net.IsNi(r[0]) && net.IsNi(r[|r| - 1]) && LegalRoute(net, levels, r[1..|r| - 1])
  }

  /** Injection first, then up towards the root, then down away from it, then ejection. */
  function ChannelRank(net: Network, levels: Levels, u: int, v: int): (int, int, int) {
    if !net.IsRouter(u) || u !in levels then (3, 0, 0)
    else if !net.IsRouter(v) || v !in levels then (0, 0, 0)
    else if IsUp(levels, u, v) then (2, levels[v], v)
    else (1, -levels[v], -v)
  }

  lemma RankDropsOnLegal(net: Network, levels: Levels, r: Route, i: int)
    requires net.Valid() && LevelsCover(net, levels) && LegalNiRoute(net, levels, r) && 0 <= i < |r| - 2
    ensures LexLess(ChannelRank(net, levels, r[i + 1], r[i + 2]), ChannelRank(net, levels, r[i], r[i + 1]))
  {
    var p := r[1..|r| - 1];
    assert p[i] == r[i + 1] && net.IsRouter(p[i]);
    if i > 0 {
      assert p[i - 1] == r[i] && net.IsRouter(p[i - 1]) && p[i] in net.adj[p[i - 1]];
      if i < |p| - 1 {
        assert p[i + 1] == r[i + 2] && net.IsRouter(p[i + 1]) && p[i + 1] in net.adj[p[i]];
        assert GoesDown(levels, p, i - 1) ==> GoesDown(levels, p, i);
      }
    }
  }

  /** Deadlock freedom of Up*\/Down*: no set of legal routes can close a dependency cycle. */
  lemma LegalRoutesAcyclic(net: Network, levels: Levels, routes: seq<Route>)
    requires net.Valid() && LevelsCover(net, levels)
    requires forall k :: 0 <= k < |routes| ==> LegalNiRoute(net, levels, routes[k])
    ensures Acyclic(DepsOf(routes))
  {
    var rank := (c: (int, int)) => ChannelRank(net, levels, c.0, c.1);
    forall a, b | Edge(DepsOf(routes), a, b) ensures LexLess(rank(b), rank(a)) {
      DepsExact(routes, a, b);
      var k, i :| 0 <= k < |routes| && DepAt(routes[k], i, a, b);
      RankDropsOnLegal(net, levels, routes[k], i);
    }
    LexRankedIsAcyclic(DepsOf(routes), rank);
  }
}
