/** A network on which the tables of `up_down` (pulp/floonoc_v2/floonoc_v2_routing.py) deadlock, whatever
    the order of its links: a ring of seven routers through the root, two of which have a second way to
    each other that goes down all along.

            0
          1   2
          3   4
          6 - 5        7 hangs off 6, 9 and 8 off 5; 7 - 8 - 9 is the second way
*/
module UpDownRing {
  import opened Wrappers
  import opened Digraph
  import opened Topology
  import opened Walks
  import opened FindCycle
  import opened CheckRoutes
  import opened Bfs
  import opened RoutingTables
  import opened ShortestPath
  import opened UpDown
  import opened UpDownDeadlock
  import Wormholes = Deadlock

  predicate Linked(u: int, v: int) {
    match u
    case 0 => v in {1, 2}
    case 1 => v in {0, 3}
    case 2 => v in {0, 4}
    case 3 => v in {1, 6}
    case 4 => v in {2, 5}
    case 5 => v in {4, 6, 8, 9}
    case 6 => v in {3, 5, 7}
    case 7 => v in {6, 8}
    case 8 => v in {5, 7, 9}
    case 9 => v in {5, 8}
    case _ => false
  }

  /** The ring, with links in any order and an NI `10 + r` at each router `r` in `ends`. */
  ghost predicate IsRing(net: Network, ends: set<int>) {
    && net.Valid() && (forall r :: r in ends ==> 0 <= r < 10)
    && (forall u :: net.IsRouter(u) <==> 0 <= u < 10)
    && (forall n :: net.IsNi(n) <==> n - 10 in ends)
    && (forall u, v :: 0 <= u < 10 && 0 <= v < 10 ==> (v in net.adj[u] <==> Linked(u, v)))
    && forall n :: n - 10 in ends ==> net.adj[n] == [n - 10]
  }

  /** Distance from router 0. */
  function Level(u: int): int {
    if u <= 0 then 0 else if u <= 2 then 1 else if u <= 4 then 2 else if u <= 6 then 3 else 4
  }

  lemma LinkedLevels(u: int, v: int)
    requires Linked(u, v)
    ensures 0 <= u < 10 && 0 <= v < 10 && Level(v) <= Level(u) + 1
  {
  }

  lemma LinksAre(net: Network, ends: set<int>, u: int, v: int)
    requires IsRing(net, ends)
    ensures Edge(RouterGraph(net), u, v) <==> Linked(u, v)
  {
    RouterEdges(net);
    if Linked(u, v) {
      LinkedLevels(u, v);
    }
  }

  /** The router one level up. */
  function ParentOf(u: int): int {
    match u
    case 3 => 1
    case 4 => 2
    case 5 => 4
    case 6 => 3
    case 7 => 6
    case 8 => 5
    case 9 => 5
    case _ => 0
  }

  lemma ParentIsLinked(u: int)
    requires 0 < u < 10
    ensures Linked(ParentOf(u), u) && 0 <= ParentOf(u) < u && Level(ParentOf(u)) == Level(u) - 1
  {
  }

  lemma {:induction false} LevelReached(net: Network, ends: set<int>, u: int)
    requires IsRing(net, ends) && 0 <= u < 10
    ensures HasPath(RouterGraph(net), 0, u, Level(u))
    decreases u
  {
    if u > 0 {
      ParentIsLinked(u);
      LevelReached(net, ends, ParentOf(u));
      LinksAre(net, ends, ParentOf(u), u);
      AppendHop(RouterGraph(net), 0, ParentOf(u), u, Level(u) - 1);
    }
  }

  lemma LevelIsLeast(net: Network, ends: set<int>, u: int, k: int)
    requires IsRing(net, ends) && HasPath(RouterGraph(net), 0, u, k)
    ensures Level(u) <= k
  {
    var left := (r: int) => -Level(r);
    forall r, s | Edge(RouterGraph(net), r, s) ensures left(r) <= left(s) + 1 {
      LinksAre(net, ends, r, s);
      LinkedLevels(r, s);
    }
    PathBound(RouterGraph(net), left, 0, u, k);
  }

  lemma LevelsAre(net: Network, ends: set<int>, levels: Levels)
    requires IsRing(net, ends) && TreeLevels(net, levels, 0)
    ensures forall u :: 0 <= u < 10 ==> levels[u] == Level(u)
  {
    forall u | 0 <= u < 10 ensures levels[u] == Level(u) {
      assert AtLevel(net, levels, 0, u);
      LevelReached(net, ends, u);
      LevelIsLeast(net, ends, u, levels[u]);
    }
  }

  predicate Up(u: int, v: int) {
    Level(v) < Level(u) || (Level(v) == Level(u) && v < u)
  }

  /** A legal step in the ring. */
  predicate Steps(s: Place, t: Place) {
    0 <= s.0 < 10 && 0 <= t.0 < 10 && Linked(s.0, t.0) && !(s.1 && Up(s.0, t.0)) && t.1 == (s.1 || !Up(s.0, t.0))
  }

  lemma EdgeIs(net: Network, ends: set<int>, levels: Levels, s: Place, t: Place)
    requires IsRing(net, ends) && TreeLevels(net, levels, 0)
    ensures Edge(UdGraph(net, levels), s, t) <==> Steps(s, t)
  {
    LevelsAre(net, ends, levels);
    assert Edge(UdGraph(net, levels), s, t) <==> Legal(net, levels, s, t);
  }

  /** Hops a packet at `s` still has to make to router `t`, at least; 99 where there is no legal way. */
  function Left(t: int, s: Place): int
    requires 0 <= s.0 < 10
  {
    (match t
     case 0 => if s.1 then [0, 99, 99, 99, 99, 99, 99, 99, 99, 99] else [0, 1, 1, 2, 2, 3, 3, 4, 4, 4]
     case 3 => if s.1 then [2, 1, 99, 0, 99, 99, 99, 99, 99, 99] else [2, 1, 3, 0, 4, 5, 1, 2, 3, 4]
     case 4 => if s.1 then [2, 99, 1, 99, 0, 99, 99, 99, 99, 99] else [2, 3, 1, 4, 0, 1, 2, 3, 2, 2]
     case 7 => if s.1 then [4, 3, 4, 2, 3, 2, 1, 0, 99, 99] else [4, 3, 4, 2, 3, 2, 1, 0, 1, 2]
     case 9 => if s.1 then [4, 5, 3, 4, 2, 1, 3, 2, 1, 0] else [4, 5, 3, 4, 2, 1, 2, 2, 1, 0]
     case _ => [0, 0, 0, 0, 0, 0, 0, 0, 0, 0])[s.0]
  }

  lemma LeftDropsByOne(t: int, s: Place, s': Place)
    requires Steps(s, s')
    ensures Left(t, s) <= Left(t, s') + 1
  {
  }

  lemma LeftBounds(net: Network, ends: set<int>, levels: Levels, t: int, s: Place, x: Place, k: int)
    requires IsRing(net, ends) && TreeLevels(net, levels, 0) && 0 <= s.0 < 10 && 0 <= x.0 < 10
    requires HasPath(UdGraph(net, levels), s, x, k)
    ensures Left(t, s) <= k + Left(t, x)
  {
    var g, left := UdGraph(net, levels), (p: Place) => if 0 <= p.0 < 10 then Left(t, p) else 0;
    forall a, b | Edge(g, a, b) ensures left(a) <= left(b) + 1 {
      EdgeIs(net, ends, levels, a, b);
      LeftDropsByOne(t, a, b);
    }
    PathBound(g, left, s, x, k);
  }

  /** The place to go to from `s` if router `n` is next. */
  function Next(s: Place, n: int): Place {
    (n, s.1 || !Up(s.0, n))
  }

  /** One hop of the way: `n` is next to `s` and one hop less from `t`. */
  predicate Nearer(t: int, s: Place, n: int)
    requires 0 <= s.0 < 10
  {
    0 <= n < 10 && Steps(s, Next(s, n)) && Left(t, Next(s, n)) == Left(t, s) - 1
  }

  predicate IsEnd(t: int) { t in {0, 3, 4, 7, 9} }

  /** The routers linked to `u`. */
  function Around(u: int): (int, int, int, int) {
    match u
    case 0 => (1, 2, 2, 2)
    case 1 => (0, 3, 3, 3)
    case 2 => (0, 4, 4, 4)
    case 3 => (1, 6, 6, 6)
    case 4 => (2, 5, 5, 5)
    case 5 => (4, 6, 8, 9)
    case 6 => (3, 5, 7, 7)
    case 7 => (6, 8, 8, 8)
    case 8 => (5, 7, 9, 9)
    case _ => (5, 8, 8, 8)
  }

  /** From every place with a legal way left, one router is nearer. */
  lemma SomeNearer(t: int, s: Place) returns (n: int)
    requires IsEnd(t) && 0 <= s.0 < 10 && 0 < Left(t, s) < 99
    ensures Nearer(t, s, n)
  {
    var (a, b, c, d) := Around(s.0);
    n := if Nearer(t, s, a) then a else if Nearer(t, s, b) then b else if Nearer(t, s, c) then c else d;
    if s.1 {
      NearerDown(t, s.0);
    } else {
      NearerFree(t, s.0);
    }
  }

  ghost predicate OneIsNearer(t: int, s: Place)
    requires 0 <= s.0 < 10
  {
    var (a, b, c, d) := Around(s.0);
    Nearer(t, s, a) || Nearer(t, s, b) || Nearer(t, s, c) || Nearer(t, s, d)
  }

  lemma NearerDown(t: int, u: int)
    requires IsEnd(t) && 0 <= u < 10 && 0 < Left(t, (u, true)) < 99
    ensures OneIsNearer(t, (u, true))
  {
  }

  lemma NearerFree(t: int, u: int)
    requires IsEnd(t) && 0 <= u < 10 && u != t
    ensures OneIsNearer(t, (u, false))
  {
  }

  lemma EndIsNear(t: int, s: Place)
    requires IsEnd(t) && 0 <= s.0 < 10
    ensures 0 <= Left(t, s) <= 99 && (Left(t, s) == 0 <==> s.0 == t) && (!s.1 ==> Left(t, s) < 99)
  {
  }

  lemma NearerPlace(net: Network, ends: set<int>, levels: Levels, t: int, s: Place) returns (x: Place)
    requires IsRing(net, ends) && TreeLevels(net, levels, 0) && IsEnd(t) && 0 <= s.0 < 10 && 0 < Left(t, s) < 99
    ensures 0 <= x.0 < 10 && Edge(UdGraph(net, levels), s, x) && Left(t, x) == Left(t, s) - 1
  {
    var n := SomeNearer(t, s);
    x := Next(s, n);
    EdgeIs(net, ends, levels, s, x);
  }

  /** Going nearer hop by hop is a legal route of exactly that length. */
  lemma {:induction false} LeftIsReached(net: Network, ends: set<int>, levels: Levels, t: int, s: Place, k: int) returns (b: bool)
    requires IsRing(net, ends) && TreeLevels(net, levels, 0) && IsEnd(t) && 0 <= s.0 < 10 && k == Left(t, s) < 99
    ensures HasPath(UdGraph(net, levels), s, (t, b), k)
    decreases k + 1
  {
    EndIsNear(t, s);
    if k == 0 {
      b := s.1;
      assert s == (t, b);
    } else {
      var x := NearerPlace(net, ends, levels, t, s);
      b := LeftIsReached(net, ends, levels, t, x, k - 1);
      PrependHop(UdGraph(net, levels), s, x, (t, b), k - 1);
    }
  }

  lemma HopIsShort(g: Graph<Place>, u: int, t: int, hop: int, c: bool, d: int) returns (b: bool, e: bool, k: int)
    requires StartsShortestLegal(g, u, t, hop) && HasPath(g, (u, false), (t, c), d)
    ensures Edge(g, (u, false), (hop, b)) && HasPath(g, (hop, b), (t, e), k) && k < d
  {
    var n;
    n, b, e :| StartsVia(g, u, t, hop, n, b, e);
    k := n - 1;
  }

  /** A first hop of a shortest legal route is one hop nearer. */
  lemma HopIsNearer(net: Network, ends: set<int>, levels: Levels, u: int, t: int, hop: int)
    requires IsRing(net, ends) && TreeLevels(net, levels, 0) && IsEnd(t) && 0 <= u < 10
    requires StartsShortestLegal(UdGraph(net, levels), u, t, hop)
    ensures Nearer(t, (u, false), hop)
  {
    EndIsNear(t, (u, false));
    var c := LeftIsReached(net, ends, levels, t, (u, false), Left(t, (u, false)));
    var b, e, k := HopIsShort(UdGraph(net, levels), u, t, hop, c, Left(t, (u, false)));
    EdgeIs(net, ends, levels, (u, false), (hop, b));
    LeftBounds(net, ends, levels, t, (hop, b), (t, e), k);
    EndIsNear(t, (t, e));
    LeftDropsByOne(t, (u, false), (hop, b));
  }

  /** The entries of router `u` for the NI at `t`: the NI itself, or a router one hop nearer. */
  lemma EntryIsNearer(net: Network, ends: set<int>, levels: Levels, tables: Tables, t: int, u: int)
    requires IsRing(net, ends) && TreeLevels(net, levels, 0) && TablesStartLegal(net, levels, tables)
    requires IsEnd(t) && t in ends && 0 <= u < 10
    ensures HasHop(tables, u, 10 + t) && Hop(net, tables, 10 + t, u, tables[u][10 + t])
    ensures if u == t then tables[u][10 + t] == 10 + t else Nearer(t, (u, false), tables[u][10 + t])
  {
    assert net.IsNi(10 + t) && Target(net, 10 + t) == t;
    assert StartsLegal(net, levels, tables, u, 10 + t);
    if u == t {
      assert t in net.adj[10 + t];
    } else {
      HopIsNearer(net, ends, levels, u, t, tables[u][10 + t]);
    }
  }

  ghost predicate OnlyNearer(t: int, u: int, v: int) {
    0 <= u < 10 && u != t && forall n :: Nearer(t, (u, false), n) ==> n == v
  }

  /** The walk from the NI of the first router of `w` to that of the last one. */
  function Walk(w: seq<int>): Route
    requires w != []
  {
    [10 + w[0]] + w + [10 + w[|w| - 1]]
  }

  /** Where there is only one router nearer, the tables have no choice. */
  lemma HopIsForced(net: Network, ends: set<int>, levels: Levels, tables: Tables, t: int, u: int, v: int)
    requires IsRing(net, ends) && TreeLevels(net, levels, 0) && TablesStartLegal(net, levels, tables)
    requires IsEnd(t) && t in ends && OnlyNearer(t, u, v)
    ensures Hop(net, tables, 10 + t, u, v)
  {
    EntryIsNearer(net, ends, levels, tables, t, u);
  }

  lemma WalkIsForced(net: Network, ends: set<int>, levels: Levels, tables: Tables, w: seq<int>, t: int)
    requires IsRing(net, ends) && TreeLevels(net, levels, 0) && TablesStartLegal(net, levels, tables)
    requires |w| > 1 && w[|w| - 1] == t && w[0] in ends && t in ends && IsEnd(t)
    requires forall i :: 0 <= i < |w| - 1 ==> OnlyNearer(t, w[i], w[i + 1])
    ensures Delivered(net, tables, 10 + w[0], 10 + t, Walk(w))
  {
    forall i | 0 <= i < |w| - 1 ensures w[i] != t && Hop(net, tables, 10 + t, w[i], w[i + 1]) {
      assert OnlyNearer(t, w[i], w[i + 1]);
      HopIsForced(net, ends, levels, tables, t, w[i], w[i + 1]);
    }
    EntryIsNearer(net, ends, levels, tables, t, t);
    HopsDeliver(net, tables, w, t);
  }

  lemma HopsDeliver(net: Network, tables: Tables, w: seq<int>, t: int)
    requires net.Valid() && |w| > 1 && w[|w| - 1] == t && net.IsNi(10 + w[0]) && net.adj[10 + w[0]] == [w[0]]
    requires !net.IsRouter(10 + t)
    requires forall i :: 0 <= i < |w| - 1 ==> w[i] != t && Hop(net, tables, 10 + t, w[i], w[i + 1])
    requires Hop(net, tables, 10 + t, t, 10 + t)
    ensures Delivered(net, tables, 10 + w[0], 10 + t, Walk(w))
  {
    var p := Walk(w);
    assert w[0] != t;
    forall i | 1 <= i < |p| - 1 ensures p[i] != 10 + t && Hop(net, tables, 10 + t, p[i], p[i + 1]) {
      assert p[i] == w[i - 1] && p[i + 1] == if i < |w| then w[i] else 10 + t;
    }
  }

  const ENDS: set<int> := {0, 3, 4, 7, 9}

  lemma Walk7To4(net: Network, ends: set<int>, levels: Levels, tables: Tables)
    requires IsRing(net, ends) && TreeLevels(net, levels, 0) && TablesStartLegal(net, levels, tables)
    requires 7 in ends && 4 in ends
    ensures Delivered(net, tables, 17, 14, [17, 7, 6, 5, 4, 14])
  {
    var w := [7, 6, 5, 4];
    forall i | 0 <= i < 3 ensures OnlyNearer(4, w[i], w[i + 1]) {
    }
    WalkIsForced(net, ends, levels, tables, w, 4);
    assert Walk(w) == [17, 7, 6, 5, 4, 14];
  }

  lemma Walk9To0(net: Network, ends: set<int>, levels: Levels, tables: Tables)
    requires IsRing(net, ends) && TreeLevels(net, levels, 0) && TablesStartLegal(net, levels, tables)
    requires 9 in ends && 0 in ends
    ensures Delivered(net, tables, 19, 10, [19, 9, 5, 4, 2, 0, 10])
  {
    var w := [9, 5, 4, 2, 0];
    forall i | 0 <= i < 4 ensures OnlyNearer(0, w[i], w[i + 1]) {
    }
    WalkIsForced(net, ends, levels, tables, w, 0);
    assert Walk(w) == [19, 9, 5, 4, 2, 0, 10];
  }

  lemma Walk4To3(net: Network, ends: set<int>, levels: Levels, tables: Tables)
    requires IsRing(net, ends) && TreeLevels(net, levels, 0) && TablesStartLegal(net, levels, tables)
    requires 4 in ends && 3 in ends
    ensures Delivered(net, tables, 14, 13, [14, 4, 2, 0, 1, 3, 13])
  {
    var w := [4, 2, 0, 1, 3];
    forall i | 0 <= i < 4 ensures OnlyNearer(3, w[i], w[i + 1]) {
    }
    WalkIsForced(net, ends, levels, tables, w, 3);
    assert Walk(w) == [14, 4, 2, 0, 1, 3, 13];
  }

  lemma Walk0To7(net: Network, ends: set<int>, levels: Levels, tables: Tables)
    requires IsRing(net, ends) && TreeLevels(net, levels, 0) && TablesStartLegal(net, levels, tables)
    requires 0 in ends && 7 in ends
    ensures Delivered(net, tables, 10, 17, [10, 0, 1, 3, 6, 7, 17])
  {
    var w := [0, 1, 3, 6, 7];
    forall i | 0 <= i < 4 ensures OnlyNearer(7, w[i], w[i + 1]) {
    }
    WalkIsForced(net, ends, levels, tables, w, 7);
    assert Walk(w) == [10, 0, 1, 3, 6, 7, 17];
  }

  lemma Walk3To9(net: Network, ends: set<int>, levels: Levels, tables: Tables)
    requires IsRing(net, ends) && TreeLevels(net, levels, 0) && TablesStartLegal(net, levels, tables)
    requires 3 in ends && 9 in ends
    ensures Delivered(net, tables, 13, 19, [13, 3, 6, 5, 9, 19])
  {
    var w := [3, 6, 5, 9];
    forall i | 0 <= i < 3 ensures OnlyNearer(9, w[i], w[i + 1]) {
    }
    WalkIsForced(net, ends, levels, tables, w, 9);
    assert Walk(w) == [13, 3, 6, 5, 9, 19];
  }

  lemma Walk9To3(net: Network, ends: set<int>, levels: Levels, tables: Tables)
    requires IsRing(net, ends) && TreeLevels(net, levels, 0) && TablesStartLegal(net, levels, tables)
    requires 9 in ends && 3 in ends
    ensures Delivered(net, tables, 19, 13, [19, 9, 8, 7, 6, 3, 13])
  {
    var w := [9, 8, 7, 6, 3];
    forall i | 0 <= i < 4 ensures OnlyNearer(3, w[i], w[i + 1]) {
    }
    WalkIsForced(net, ends, levels, tables, w, 3);
    assert Walk(w) == [19, 9, 8, 7, 6, 3, 13];
  }

  /** Five packets, each of which holds the way to its place, and waits for the next one's channels. */
  function Circle(): Wormholes.State {
    [
      Wormholes.Packet([17, 7, 6, 5, 4, 14], 0, 3),
      Wormholes.Packet([19, 9, 5, 4, 2, 0, 10], 0, 3),
      Wormholes.Packet([14, 4, 2, 0, 1, 3, 13], 0, 3),
      Wormholes.Packet([10, 0, 1, 3, 6, 7, 17], 0, 3),
      Wormholes.Packet([13, 3, 6, 5, 9, 19], 0, 2)
    ]
  }

  /** The channels packet number `k` holds. */
  function Held(k: int): set<Channel> {
    match k
    case 0 => {(17, 7), (7, 6), (6, 5)}
    case 1 => {(19, 9), (9, 5), (5, 4)}
    case 2 => {(14, 4), (4, 2), (2, 0)}
    case 3 => {(10, 0), (0, 1), (1, 3)}
    case _ => {(13, 3), (3, 6)}
  }

  ghost predicate HoldsExactly(p: Wormholes.Packet, held: set<Channel>) {
    p.Ok() && forall c :: p.Holds(c) <==> c in held
  }

  lemma HoldsIs(p: Wormholes.Packet, held: set<Channel>)
    requires p.Ok() && p.lo == 0 && 2 <= p.hi <= 3
    requires held == {p.Channel(0), p.Channel(1)} + if p.hi == 3 then {p.Channel(2)} else {}
    ensures HoldsExactly(p, held)
  {
    forall c ensures p.Holds(c) <==> c in held {
      if p.Holds(c) {
        var i :| p.lo <= i < p.hi && p.Channel(i) == c;
        assert i == 0 || i == 1 || i == 2;
      }
    }
  }

  lemma CircleHolds(k: int)
    requires 0 <= k < 5
    ensures HoldsExactly(Circle()[k], Held(k))
  {
    HoldsIs(Circle()[k], Held(k));
  }

  lemma HeldApart(j: int, k: int)
    requires 0 <= j < k < 5
    ensures Held(j) !! Held(k)
  {
  }

  lemma ApartByHeld(p: Wormholes.Packet, q: Wormholes.Packet, a: set<Channel>, b: set<Channel>)
    requires HoldsExactly(p, a) && HoldsExactly(q, b) && a !! b
    ensures Wormholes.Apart(p, q)
  {
  }

  lemma CircleApart(j: int, k: int)
    requires 0 <= j < k < 5
    ensures Circle()[j].Ok() && Circle()[k].Ok() && Wormholes.Apart(Circle()[j], Circle()[k])
  {
    CircleHolds(j);
    CircleHolds(k);
    HeldApart(j, k);
    ApartByHeld(Circle()[j], Circle()[k], Held(j), Held(k));
  }

  lemma CircleRoutes(k: int)
    requires 0 <= k < 5
    ensures
      var p := Circle()[k];
      && Wormholes.FromSource(p) && Distinct(p.route) && !p.Arriving()
      && p.Channel(p.hi) in Held(if k == 4 then 0 else k + 1)
  {
  }

  lemma WaitsByHeld(p: Wormholes.Packet, q: Wormholes.Packet, held: set<Channel>)
    requires p.Ok() && !p.Arriving() && HoldsExactly(q, held) && p.Channel(p.hi) in held
    ensures Wormholes.WaitsForPacket(p, q)
  {
  }

  lemma CircleWaits(k: int)
    requires 0 <= k < 5
    ensures Wormholes.InCircle(Circle(), k)
  {
    var next := if k == 4 then 0 else k + 1;
    CircleRoutes(k);
    CircleHolds(next);
    WaitsByHeld(Circle()[k], Circle()[next], Held(next));
  }

  lemma CircleIsCircular()
    ensures Wormholes.Circular(Circle())
  {
    assert |Circle()| == 5;
    forall k | 0 <= k < 5 ensures Wormholes.InCircle(Circle(), k) {
      CircleWaits(k);
    }
    forall j, k | 0 <= j < k < 5
      ensures Circle()[j].Ok() && Circle()[k].Ok() && Wormholes.Apart(Circle()[j], Circle()[k])
    {
      CircleApart(j, k);
    }
  }

  /** `up_down` is not deadlock free on every topology: on the ring, with NIs at `ENDS`, all tables whose
      entries start shortest legal routes can come to a deadlock. */
  lemma UpDownDeadlocks(net: Network, levels: Levels, tables: Tables)
    requires IsRing(net, ENDS) && TreeLevels(net, levels, 0) && TablesStartLegal(net, levels, tables)
    ensures !DeadlockFree(net, tables)
    ensures forall routes :: RoutesMatch(net, tables, AllPairs(net.nis), routes) ==>
      Wormholes.Stuck(routes, Circle()) && Wormholes.CanArise(routes, Circle())
  {
    forall routes | RoutesMatch(net, tables, AllPairs(net.nis), routes)
      ensures Wormholes.Stuck(routes, Circle()) && Wormholes.CanArise(routes, Circle()) && !Acyclic(DepsOf(routes))
    {
      forall k | 0 <= k < 5 ensures Circle()[k].route in routes {
        var s, d := CircleWalks(net, levels, tables, k);
        RoutesAreWalks(net, tables, routes, Circle()[k].route);
      }
      CircleIsCircular();
      Wormholes.CircleArises(routes, Circle());
      Wormholes.DeadlockFreeExactly(routes);
    }
    UpDownDelivers(net, levels, tables);
    var routes := RoutesExist(net, tables, AllPairs(net.nis));
  }

  lemma CircleWalks(net: Network, levels: Levels, tables: Tables, k: int) returns (s: int, d: int)
    requires IsRing(net, ENDS) && TreeLevels(net, levels, 0) && TablesStartLegal(net, levels, tables) && 0 <= k < 5
    ensures net.IsNi(d) && Delivered(net, tables, s, d, Circle()[k].route)
  {
    match k {
      case 0 => Walk7To4(net, ENDS, levels, tables); s, d := 17, 14;
      case 1 => Walk9To0(net, ENDS, levels, tables); s, d := 19, 10;
      case 2 => Walk4To3(net, ENDS, levels, tables); s, d := 14, 13;
      case 3 => Walk0To7(net, ENDS, levels, tables); s, d := 10, 17;
      case _ => Walk3To9(net, ENDS, levels, tables); s, d := 13, 19;
    }
  }

  function RoutersNear(u: int): seq<int> {
    match u
    case 0 => [1, 2]
    case 1 => [0, 3]
    case 2 => [0, 4]
    case 3 => [1, 6]
    case 4 => [2, 5]
    case 5 => [4, 6, 8, 9]
    case 6 => [3, 5, 7]
    case 7 => [6, 8]
    case 8 => [5, 7, 9]
    case 9 => [5, 8]
    case _ => []
  }

  lemma RoutersNearAre(u: int, v: int)
    ensures Distinct(RoutersNear(u)) && (v in RoutersNear(u) <==> Linked(u, v))
    ensures Linked(u, v) ==> 0 <= u < 10 && 0 <= v < 10 && u != v && Linked(v, u)
  {
  }

  function Neighbours(n: int, ends: set<int>): seq<int> {
    if n in ends then RoutersNear(n) + [10 + n] else if n - 10 in ends then [n - 10] else RoutersNear(n)
  }

  function Elements(ends: seq<int>): set<int> { set e | e in ends }

  /** One such network. */
  function Ring(ends: seq<int>): Network {
    var routers, nis := seq(10, k => k), seq(|ends|, k requires 0 <= k < |ends| => 10 + ends[k]);
    Network(routers, nis, map n | n in routers + nis :: Neighbours(n, Elements(ends)), map[])
  }

  ghost predicate NodeOk(net: Network, ends: set<int>, n: int) {
    && (net.IsRouter(n) <==> 0 <= n < 10) && (net.IsNi(n) <==> n - 10 in ends)
    && (n in net.adj <==> 0 <= n < 10 || n - 10 in ends)
    && (n in net.adj ==> Distinct(net.adj[n])) && (n - 10 in ends ==> n in net.adj && net.adj[n] == [n - 10])
  }

  ghost predicate LinkOk(net: Network, a: int, b: int) {
    && (a in net.adj && b in net.adj[a] ==> b in net.adj && a in net.adj[b] && a != b && !(a >= 10 && b >= 10))
    && (0 <= a < 10 && 0 <= b < 10 && a in net.adj ==> (b in net.adj[a] <==> Linked(a, b)))
  }

  predicate EndsOk(ends: seq<int>) {
    forall i :: 0 <= i < |ends| ==> 0 <= ends[i] < 10 && ends[i] !in ends[..i]
  }

  lemma RingNodeOk(ends: seq<int>, n: int)
    requires EndsOk(ends)
    ensures NodeOk(Ring(ends), Elements(ends), n)
  {
    var net := Ring(ends);
    if 0 <= n < 10 {
      assert net.routers[n] == n;
    }
    if n - 10 in ends {
      var k :| 0 <= k < |ends| && ends[k] == n - 10;
      assert net.nis[k] == n;
    }
    RoutersNearAre(n, 10 + n);
  }

  lemma RingLinkOk(ends: seq<int>, a: int, b: int)
    requires EndsOk(ends)
    ensures LinkOk(Ring(ends), a, b)
  {
    RingNodeOk(ends, a);
    RingNodeOk(ends, b);
    RoutersNearAre(a, b);
  }

  lemma IsRingByParts(net: Network, ends: set<int>)
    requires Distinct(net.routers) && Distinct(net.nis) && net.coords == map[]
    requires forall r :: r in ends ==> 0 <= r < 10
    requires forall n :: NodeOk(net, ends, n)
    requires forall a, b :: LinkOk(net, a, b)
    ensures IsRing(net, ends)
  {
    forall n
      ensures (net.IsRouter(n) <==> 0 <= n < 10) && (net.IsNi(n) <==> n - 10 in ends)
      ensures n in net.adj <==> 0 <= n < 10 || n - 10 in ends
      ensures (n in net.adj ==> Distinct(net.adj[n])) && (n - 10 in ends ==> n in net.adj && net.adj[n] == [n - 10])
    {
      assert NodeOk(net, ends, n);
    }
    forall a, b | a in net.adj
      ensures b in net.adj[a] ==> b in net.adj && a in net.adj[b] && a != b && !(a >= 10 && b >= 10)
      ensures 0 <= a < 10 && 0 <= b < 10 ==> (b in net.adj[a] <==> Linked(a, b))
    {
      assert LinkOk(net, a, b);
    }
  }

  lemma RingIsRing(ends: seq<int>)
    requires EndsOk(ends)
    ensures IsRing(Ring(ends), Elements(ends))
  {
    forall n ensures NodeOk(Ring(ends), Elements(ends), n) {
      RingNodeOk(ends, n);
    }
    forall a, b ensures LinkOk(Ring(ends), a, b) {
      RingLinkOk(ends, a, b);
    }
    IsRingByParts(Ring(ends), Elements(ends));
  }

  /** `up_down` builds tables for the ring. */
  method RingTables(ends: seq<int>) returns (tables: Result<Tables, GenError>, ghost levels: Levels)
    requires EndsOk(ends)
    ensures IsRing(Ring(ends), Elements(ends)) && tables.Ok?
    ensures TreeLevels(Ring(ends), levels, 0) && TablesStartLegal(Ring(ends), levels, tables.value)
  {
    RingIsRing(ends);
    forall u | Ring(ends).IsRouter(u) ensures Reachable(RouterGraph(Ring(ends)), 0, u) {
      LevelReached(Ring(ends), Elements(ends), u);
    }
    tables, levels := UpDownTables(Ring(ends), Some(0));
  }

  /** They are refused by `check_routes`, because they can deadlock. */
  method RingIsRefused() returns (routes: Result<seq<Route>, RouteError>)
    ensures routes.Err? && routes.error.Deadlock?
  {
    var ends := [0, 3, 4, 7, 9];
    assert Elements(ends) == ENDS;
    var tables;
    ghost var levels;
    tables, levels := RingTables(ends);
    UpDownDeadlocks(Ring(ends), levels, tables.value);
    routes := CheckRoutes.CheckRoutes(Ring(ends), tables.value, false);
  }

  /** The same ring with two NIs only: a packet goes up after going down, and nothing can deadlock. */
  lemma TurnWithoutDeadlock(net: Network, levels: Levels, tables: Tables)
    requires IsRing(net, {3, 9}) && TreeLevels(net, levels, 0) && TablesStartLegal(net, levels, tables)
    ensures Visited(net, tables, 19, 3) && TurnsUp(net, levels, tables, 19, 3) && DeadlockFree(net, tables)
  {
    Walk3To9(net, {3, 9}, levels, tables);
    Walk9To3(net, {3, 9}, levels, tables);
    LevelsAre(net, {3, 9}, levels);
    TurnOfWalk(net, levels, tables, 13, 19, [13, 3, 6, 5, 9, 19], 1);
    forall routes | RoutesMatch(net, tables, AllPairs(net.nis), routes) ensures Acyclic(DepsOf(routes)) {
      TwoWalksAcyclic(net, tables, routes);
    }
  }

  /** Position of a channel in the two walks. */
  function Position(c: Channel): int {
    match c
    case (13, 3) => 0
    case (3, 6) => 1
    case (6, 5) => 2
    case (5, 9) => 3
    case (9, 19) => 4
    case (19, 9) => 5
    case (9, 8) => 6
    case (8, 7) => 7
    case (7, 6) => 8
    case (6, 3) => 9
    case _ => 10
  }

  lemma PositionRises(r: Route, i: int, a: Channel, b: Channel)
    requires r == [13, 3, 6, 5, 9, 19] || r == [19, 9, 8, 7, 6, 3, 13]
    requires DepAt(r, i, a, b)
    ensures Position(a) < Position(b)
  {
  }

  lemma TwoWalksAcyclic(net: Network, tables: Tables, routes: seq<Route>)
    requires IsRing(net, {3, 9}) && RoutesMatch(net, tables, AllPairs(net.nis), routes)
    requires Delivered(net, tables, 13, 19, [13, 3, 6, 5, 9, 19]) && Delivered(net, tables, 19, 13, [19, 9, 8, 7, 6, 3, 13])
    ensures Acyclic(DepsOf(routes))
  {
    var rank := (c: Channel) => (-Position(c), 0, 0);
    forall a, b | Edge(DepsOf(routes), a, b) ensures LexLess(rank(b), rank(a)) {
      var dst, p, i := DepOfWalk(net, tables, routes, a, b);
      assert p[0] != dst && net.IsNi(p[0]);
      if dst == 19 {
        DeliveredIsUnique(net, tables, 13, 19, p, [13, 3, 6, 5, 9, 19]);
      } else {
        DeliveredIsUnique(net, tables, 19, 13, p, [19, 9, 8, 7, 6, 3, 13]);
      }
      PositionRises(p, i, a, b);
    }
    LexRankedIsAcyclic(DepsOf(routes), rank);
  }

  /** `check_routes` accepts the tables of the ring with two NIs. */
  method TurnIsAccepted() returns (routes: Result<seq<Route>, RouteError>)
    ensures routes.Ok?
  {
    var ends := [3, 9];
    assert Elements(ends) == {3, 9};
    var tables;
    ghost var levels;
    tables, levels := RingTables(ends);
    TurnWithoutDeadlock(Ring(ends), levels, tables.value);
    UpDownDelivers(Ring(ends), levels, tables.value);
    routes := CheckRoutes.CheckRoutes(Ring(ends), tables.value, false);
  }
}
