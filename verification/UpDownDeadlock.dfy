/** What `up_down` tables (pulp/floonoc_v2/floonoc_v2_routing.py) do about deadlock. Each entry starts a
    legal route, but the next router starts afresh, so a packet may go up again after going down. Such
    turns are all that can close a dependency cycle. */
module UpDownDeadlock {
  import opened Wrappers
  import opened Digraph
  import opened Topology
  import opened Walks
  import opened FindCycle
  import opened CheckRoutes
  import opened UpDown

  /** Down from `u` to `v`, then up to `w`. */
  predicate IsTurn(net: Network, levels: Levels, u: int, v: int, w: int) {
    && net.IsRouter(u) && net.IsRouter(v) && net.IsRouter(w) && u in levels && v in levels && w in levels
    && !IsUp(levels, u, v) && IsUp(levels, v, w)
  }

  /** The tables send a packet for `dst` down from router `u`, and from the next router up again. */
  predicate TurnsUp(net: Network, levels: Levels, tables: Tables, dst: int, u: int) {
    && HasHop(tables, u, dst) && HasHop(tables, tables[u][dst], dst)
    && IsTurn(net, levels, u, tables[u][dst], tables[tables[u][dst]][dst])
  }

  ghost predicate VisitsAt(net: Network, tables: Tables, src: int, dst: int, p: Route, i: int, u: int)
    requires net.Valid()
  {
    net.IsNi(dst) && Delivered(net, tables, src, dst, p) && 0 < i < |p| - 1 && p[i] == u
  }

  /** Some packet for `dst` comes to router `u`. */
  ghost predicate Visited(net: Network, tables: Tables, dst: int, u: int)
    requires net.Valid()
  {
    exists src, p, i :: VisitsAt(net, tables, src, dst, p, i, u)
  }

  /** No packet ever goes up after going down. */
  ghost predicate AllWalksLegal(net: Network, levels: Levels, tables: Tables)
    requires net.Valid() && LevelsCover(net, levels)
  {
    forall src, dst, p :: net.IsNi(dst) && Delivered(net, tables, src, dst, p) ==> LegalNiRoute(net, levels, p)
  }

  /** The tables have no turn where a packet meets it. */
  ghost predicate NoTurns(net: Network, levels: Levels, tables: Tables)
    requires net.Valid()
  {
    forall dst, u :: Visited(net, tables, dst, u) ==> !TurnsUp(net, levels, tables, dst, u)
  }

  lemma {:induction false} StaysDown(levels: Levels, q: Route, i: int, j: int)
    requires forall k :: k + 1 < |q| - 1 && GoesDown(levels, q, k) ==> GoesDown(levels, q, k + 1)
    requires 0 <= i <= j < |q| - 1 && GoesDown(levels, q, i)
    ensures GoesDown(levels, q, j)
    decreases j
  {
    if i < j {
      StaysDown(levels, q, i, j - 1);
    }
  }

  /** A walk is legal if it has no turn. */
  lemma LegalWithoutTurns(net: Network, levels: Levels, tables: Tables, src: int, dst: int, p: Route)
    requires net.Valid() && LevelsCover(net, levels) && net.IsNi(dst) && Delivered(net, tables, src, dst, p)
    requires forall i :: 0 < i < |p| - 3 ==> !IsTurn(net, levels, p[i], p[i + 1], p[i + 2])
    ensures LegalNiRoute(net, levels, p)
  {
    NiRouterIsRouter(net, src);
    var q := p[1..|p| - 1];
    forall i | 0 <= i < |q|
      ensures q[i] == p[i + 1] && net.IsRouter(q[i]) && (i + 1 < |q| ==> q[i + 1] in net.adj[q[i]])
    {
      assert Hop(net, tables, dst, p[i + 1], p[i + 2]);
    }
    forall k | k + 1 < |q| - 1 && GoesDown(levels, q, k) ensures GoesDown(levels, q, k + 1) {
      assert !IsTurn(net, levels, p[k + 1], p[k + 2], p[k + 3]);
    }
    forall i, j | 0 <= i < j < |q| - 1 && GoesDown(levels, q, i) ensures GoesDown(levels, q, j) {
      StaysDown(levels, q, i, j);
    }
  }

  /** A turn of a walk is one of the tables, and the other way round. */
  lemma TurnOfWalk(net: Network, levels: Levels, tables: Tables, src: int, dst: int, p: Route, i: int)
    requires net.Valid() && net.IsNi(dst) && Delivered(net, tables, src, dst, p) && 0 < i < |p| - 1
    ensures Visited(net, tables, dst, p[i]) && Hop(net, tables, dst, p[i], p[i + 1])
    ensures TurnsUp(net, levels, tables, dst, p[i]) <==> i < |p| - 3 && IsTurn(net, levels, p[i], p[i + 1], p[i + 2])
  {
    assert VisitsAt(net, tables, src, dst, p, i, p[i]);
    assert Hop(net, tables, dst, p[i], p[i + 1]);
    if i < |p| - 2 {
      assert Hop(net, tables, dst, p[i + 1], p[i + 2]);
    }
  }

  /** The walks of the tables are Up*\/Down* legal if and only if no entry goes up out of a router that
      another entry for the same NI enters going down. */
  lemma LegalExactly(net: Network, levels: Levels, tables: Tables)
    requires net.Valid() && LevelsCover(net, levels)
    ensures AllWalksLegal(net, levels, tables) <==> NoTurns(net, levels, tables)
  {
    if NoTurns(net, levels, tables) {
      forall src, dst, p | net.IsNi(dst) && Delivered(net, tables, src, dst, p) ensures LegalNiRoute(net, levels, p) {
        forall i | 0 < i < |p| - 3 ensures !IsTurn(net, levels, p[i], p[i + 1], p[i + 2]) {
          TurnOfWalk(net, levels, tables, src, dst, p, i);
        }
        LegalWithoutTurns(net, levels, tables, src, dst, p);
      }
    }
    if AllWalksLegal(net, levels, tables) {
      forall dst, u | Visited(net, tables, dst, u) ensures !TurnsUp(net, levels, tables, dst, u) {
        var src, p, i :| VisitsAt(net, tables, src, dst, p, i, u);
        TurnOfWalk(net, levels, tables, src, dst, p, i);
        if i < |p| - 3 {
          assert LegalNiRoute(net, levels, p);
          var q := p[1..|p| - 1];
          assert q[i - 1] == p[i] && q[i] == p[i + 1] && q[i + 1] == p[i + 2];
          assert GoesDown(levels, q, i - 1) ==> GoesDown(levels, q, i);
        }
      }
    }
  }

  /** A dependency that is not a turn goes down in the order of channels. */
  lemma RankDropsWithoutTurn(net: Network, levels: Levels, tables: Tables, src: int, dst: int, p: Route, i: int)
    requires net.Valid() && LevelsCover(net, levels) && net.IsNi(dst) && Delivered(net, tables, src, dst, p)
    requires 0 <= i < |p| - 2 && !IsTurn(net, levels, p[i], p[i + 1], p[i + 2])
    ensures LexLess(ChannelRank(net, levels, p[i + 1], p[i + 2]), ChannelRank(net, levels, p[i], p[i + 1]))
  {
    NiRouterIsRouter(net, src);
    assert Hop(net, tables, dst, p[i + 1], p[i + 2]);
    if i > 0 {
      assert Hop(net, tables, dst, p[i], p[i + 1]);
    }
  }

  ghost predicate TurnDep(net: Network, levels: Levels, a: Channel, b: Channel) {
    a.1 == b.0 && IsTurn(net, levels, a.0, a.1, b.1)
  }

  /** The dependencies that are not turns. */
  ghost function WithoutTurns(net: Network, levels: Levels, deps: Graph<Channel>): Graph<Channel> {
    map a | a in deps :: set b | b in deps[a] && !TurnDep(net, levels, a, b)
  }

  lemma WithoutTurnsAcyclic(net: Network, levels: Levels, tables: Tables, routes: seq<Route>)
    requires net.Valid() && LevelsCover(net, levels) && RoutesMatch(net, tables, AllPairs(net.nis), routes)
    ensures Acyclic(WithoutTurns(net, levels, DepsOf(routes)))
  {
    var g := WithoutTurns(net, levels, DepsOf(routes));
    var rank := (c: (int, int)) => ChannelRank(net, levels, c.0, c.1);
    forall a, b | Edge(g, a, b) ensures LexLess(rank(b), rank(a)) {
      var dst, p, i := DepOfWalk(net, tables, routes, a, b);
      RankDropsWithoutTurn(net, levels, tables, p[0], dst, p, i);
    }
    LexRankedIsAcyclic(g, rank);
  }

  /** Every dependency comes from the walk of some packet. */
  lemma DepOfWalk(net: Network, tables: Tables, routes: seq<Route>, a: Channel, b: Channel)
    returns (dst: int, p: Route, i: int)
    requires net.Valid() && RoutesMatch(net, tables, AllPairs(net.nis), routes) && Edge(DepsOf(routes), a, b)
    ensures net.IsNi(dst) && DepAt(p, i, a, b) && Delivered(net, tables, p[0], dst, p)
  {
    DepsExact(routes, a, b);
    var k, j :| 0 <= k < |routes| && DepAt(routes[k], j, a, b);
    AllPairsExact(net.nis);
    var pair := AllPairs(net.nis)[k];
    assert (pair.0, pair.1) in AllPairs(net.nis);
    dst, p, i := pair.1, routes[k], j;
  }

  /** Channel `k` of the cycle is where the tables send packets for `dst` down, to go up next. */
  ghost predicate TurnsAt(net: Network, levels: Levels, tables: Tables, c: seq<Channel>, k: int, dst: int)
    requires net.Valid()
  {
    && 0 <= k < |c| && Visited(net, tables, dst, c[k].0) && TurnsUp(net, levels, tables, dst, c[k].0)
    && tables[c[k].0][dst] == c[k].1
  }

  /** Every dependency cycle contains a turn of the tables. */
  lemma CycleTurnsUp(net: Network, levels: Levels, tables: Tables, routes: seq<Route>, c: seq<Channel>)
    returns (k: int, dst: int)
    requires net.Valid() && LevelsCover(net, levels) && RoutesMatch(net, tables, AllPairs(net.nis), routes)
    requires IsCycle(DepsOf(routes), c)
    ensures TurnsAt(net, levels, tables, c, k, dst)
  {
    WithoutTurnsAcyclic(net, levels, tables, routes);
    var n := |c|;
    assert !IsCycle(WithoutTurns(net, levels, DepsOf(routes)), c);
    k :| 0 <= k < n && TurnDep(net, levels, c[k], c[if k == n - 1 then 0 else k + 1]);
    var next := c[if k == n - 1 then 0 else k + 1];
    assert Edge(DepsOf(routes), c[k], next);
    var p, i;
    dst, p, i := DepOfWalk(net, tables, routes, c[k], next);
    DeliveredEnds(net, tables, p[0], dst, p);
    TurnOfWalk(net, levels, tables, p[0], dst, p, i);
  }

  /** Tables without turns cannot deadlock. */
  lemma NoTurnsDeadlockFree(net: Network, levels: Levels, tables: Tables)
    requires net.Valid() && LevelsCover(net, levels) && NoTurns(net, levels, tables)
    ensures DeadlockFree(net, tables)
  {
    forall routes | RoutesMatch(net, tables, AllPairs(net.nis), routes) ensures Acyclic(DepsOf(routes)) {
      forall c | IsCycle(DepsOf(routes), c) ensures false {
        var k, dst := CycleTurnsUp(net, levels, tables, routes, c);
      }
    }
  }

  /** No router has two links towards the root: the routers form a tree. */
  ghost predicate OneUpLink(net: Network, levels: Levels)
    requires net.Valid() && LevelsCover(net, levels)
  {
    forall u, v, w :: net.IsRouter(u) && net.IsRouter(v) && net.IsRouter(w) && v in net.adj[u] && w in net.adj[u] ==>
      IsUp(levels, u, v) && IsUp(levels, u, w) ==> v == w
  }

  /** On a tree no tables that deliver can deadlock: a turn would lead straight back. */
  lemma TreeDeadlockFree(net: Network, levels: Levels, tables: Tables)
    requires net.Valid() && LevelsCover(net, levels) && OneUpLink(net, levels)
    ensures NoTurns(net, levels, tables) && DeadlockFree(net, tables)
  {
    forall dst, u | Visited(net, tables, dst, u) ensures !TurnsUp(net, levels, tables, dst, u) {
      var src, p, i :| VisitsAt(net, tables, src, dst, p, i, u);
      TurnOfWalk(net, levels, tables, src, dst, p, i);
      DeliveredIsSimple(net, tables, src, dst, p);
      if i < |p| - 3 {
        assert Hop(net, tables, dst, p[i], p[i + 1]) && Hop(net, tables, dst, p[i + 1], p[i + 2]);
        assert p[i] != p[i + 2] && p[i] in net.adj[p[i + 1]];
      }
    }
    NoTurnsDeadlockFree(net, levels, tables);
  }
}
