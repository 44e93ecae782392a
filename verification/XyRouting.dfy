/** XY routing of the mesh routers: the v2 rule (pulp/floonoc_v2/floonoc_router_v2.cpp), the v1 rule
    (pulp/floonoc/floonoc_router.cpp), delivery, and the agreement of the two. */
module XyRouting {
  import opened Digraph

  const DIR_RIGHT := 0
  const DIR_LEFT := 1
  const DIR_UP := 2
  const DIR_DOWN := 3
  const DIR_LOCAL := 4

  type Pos = (int, int)

  /** Row in the upper half word, column in the lower one. */
  function NodeId(x: int, y: int): int { y * 0x10000 + x }

  function NodeX(id: int): int { id % 0x10000 }

  function NodeY(id: int): int { id / 0x10000 }

  /** Packing a position loses nothing. */
  lemma NodeIdRoundTrip(x: int, y: int)
    requires 0 <= x < 0x10000 && 0 <= y < 0x8000
    ensures 0 <= NodeId(x, y) < 0x8000_0000
    ensures NodeX(NodeId(x, y)) == x && NodeY(NodeId(x, y)) == y
  {
  }

  function Clamp(v: int, lo: int, hi: int): int {
    if v < lo then lo else if v > hi then hi else v
  }

  /** Leaving the mesh in one direction: `d` is a port number. */
  function Leave(at: Pos, d: int): Pos {
    if d == DIR_UP then (at.0, at.1 + 1)
    else if d == DIR_DOWN then (at.0, at.1 - 1)
    else if d == DIR_RIGHT then (at.0 + 1, at.1)
    else (at.0 - 1, at.1)
  }

  /** v2 `get_next_router_pos`, from the router at `at` when routers span columns `minX..maxX`. */
  function NextPos(at: Pos, dest: int, minX: int, maxX: int): Pos
    requires -4 <= dest
  {
    if dest < 0 then Leave(at, dest + 4)
    else
      var (x, y) := at;
      var dx, dy := NodeX(dest), NodeY(dest);
      if dx == x && dy == y then at
      else
        var rx := Clamp(dx, minX, maxX);
        if rx != x then (if rx < x then x - 1 else x + 1, y)
        else if dy != y then (x, if dy < y then y - 1 else y + 1)
        else (if dx < x then x - 1 else x + 1, y)
  }

  /** v1 `get_next_router_pos`, in a mesh of `dimX` columns. */
  function NextPosV1(at: Pos, destX: int, destY: int, dimX: int): Pos
    requires -4 <= destX
  {
    if destX < 0 then Leave(at, destX + 4)
    else
      var (x, y) := at;
      if destX == x && destY == y then at
      else
        var nx := if destX < x then x - 1 else x + 1;
        if destX != x && ((nx != 0 && nx != dimX - 1) || y == destY) then (nx, y)
        else (x, if destY < y then y - 1 else y + 1)
  }

  /** `get_req_queue`: the port facing a position. */
  function PortTo(at: Pos, next: Pos): int {
    if next.0 != at.0 then (if next.0 < at.0 then DIR_LEFT else DIR_RIGHT)
    else if next.1 != at.1 then (if next.1 < at.1 then DIR_DOWN else DIR_UP)
    else DIR_LOCAL
  }

  /** Both versions take the same hop at every router when routers span all columns but the outer two. */
  lemma VersionsAgree(at: Pos, x: int, y: int, dimX: int)
    requires 1 <= at.0 <= dimX - 2 && 0 <= x < 0x10000 && 0 <= y
    ensures NextPos(at, NodeId(x, y), 1, dimX - 2) == NextPosV1(at, x, y, dimX)
  {
  }

  lemma VersionsAgreeOutwards(at: Pos, d: int, y: int, dimX: int)
    requires -4 <= d < 0
    ensures NextPos(at, d, 1, dimX - 2) == NextPosV1(at, d, y, dimX)
    ensures PortTo(at, NextPos(at, d, 1, dimX - 2)) == d + 4
  {
  }

  /** A full grid of routers, with NIs on the routers and around them, but not at the corners. */
  datatype Grid = Grid(minX: int, maxX: int, minY: int, maxY: int) {

    predicate HasRouter(p: Pos) {
      minX <= p.0 <= maxX && minY <= p.1 <= maxY
    }

    predicate HasNi(p: Pos) {
      && 0 <= p.0 < 0x10000 && 0 <= p.1 < 0x8000
      && minX - 1 <= p.0 <= maxX + 1 && minY - 1 <= p.1 <= maxY + 1
      && (minX <= p.0 <= maxX || minY <= p.1 <= maxY)
    }

    /** Hops left from a router to the position of an NI. */
    function Hops(at: Pos, ni: Pos): nat {
      Gap(at.0, ni.0) + Gap(at.1, ni.1)
    }

    function Gap(a: int, b: int): nat {
      if a < b then b - a else a - b
    }
  }

  /** One hop: the packet arrives, or stays among the routers; either way it is one hop closer, and
      the port it leaves through faces where it goes. */
  lemma HopIsCloser(g: Grid, at: Pos, ni: Pos)
    requires g.HasRouter(at) && g.HasNi(ni)
    ensures
      var next := NextPos(at, NodeId(ni.0, ni.1), g.minX, g.maxX);
      if at == ni then next == at && PortTo(at, next) == DIR_LOCAL
      else
        && g.Hops(next, ni) == g.Hops(at, ni) - 1
        && (next == ni || g.HasRouter(next))
        && PortTo(at, next) != DIR_LOCAL && next == Leave(at, PortTo(at, next))
  {
  }

  /** The positions a packet visits from a router on. */
  ghost predicate IsXyRoute(g: Grid, ni: Pos, p: seq<Pos>)
    requires g.HasNi(ni)
  {
    && p != []
    && forall i :: 0 <= i < |p| - 1 ==>
         && g.HasRouter(p[i]) && p[i] != ni
         && p[i + 1] == NextPos(p[i], NodeId(ni.0, ni.1), g.minX, g.maxX)
  }

  /** Every packet reaches its NI, by a shortest way through the grid. */
  lemma {:induction false} XyDelivers(g: Grid, at: Pos, ni: Pos) returns (p: seq<Pos>)
    requires g.HasNi(ni) && (g.HasRouter(at) || at == ni)
    ensures IsXyRoute(g, ni, p) && p[0] == at && p[|p| - 1] == ni && |p| == g.Hops(at, ni) + 1
    decreases g.Hops(at, ni)
  {
    if at == ni {
      p := [at];
    } else {
      HopIsCloser(g, at, ni);
      var next := NextPos(at, NodeId(ni.0, ni.1), g.minX, g.maxX);
      var q := XyDelivers(g, next, ni);
      p := [at] + q;
      forall i | 0 <= i < |p| - 1
        ensures g.HasRouter(p[i]) && p[i] != ni && p[i + 1] == NextPos(p[i], NodeId(ni.0, ni.1), g.minX, g.maxX)
      {
        assert i > 0 ==> p[i] == q[i - 1] && p[i + 1] == q[i];
      }
    }
  }

  /** A link into a router from an NI, or out of a router at `a` towards `b` (itself: its own NI). */
  datatype Link = Into(router: Pos) | Out(a: Pos, b: Pos)

  /** A packet for some NI may hold link `l` while it waits for link `m`. */
  ghost predicate MayWait(g: Grid, l: Link, m: Link) {
    exists ni :: WaitsFor(g, ni, l, m)
  }

  ghost predicate WaitsFor(g: Grid, ni: Pos, l: Link, m: Link) {
    && g.HasNi(ni) && m.Out? && g.HasRouter(m.a) && m.b == NextPos(m.a, NodeId(ni.0, ni.1), g.minX, g.maxX)
    && (l.Into? ==> l.router == m.a)
    && (l.Out? ==> g.HasRouter(l.a) && l.a != ni && l.b == m.a
                   && l.b == NextPos(l.a, NodeId(ni.0, ni.1), g.minX, g.maxX))
  }

  /** Links into routers; then columns, each in its direction; then rows; then links to NIs. */
  function LinkRank(g: Grid, l: Link): (int, int, int) {
    if l.Into? then (3, 0, 0)
    else if !g.HasRouter(l.b) || l.a == l.b then (0, 0, 0)
    else if l.a.0 != l.b.0 then (2, if l.b.0 > l.a.0 then -l.b.0 else l.b.0, 0)
    else (1, if l.b.1 > l.a.1 then -l.b.1 else l.b.1, 0)
  }

  lemma LinksDescend(g: Grid, ni: Pos, l: Link, m: Link)
    requires WaitsFor(g, ni, l, m)
    ensures LexLess(LinkRank(g, m), LinkRank(g, l))
  {
    NodeIdRoundTrip(ni.0, ni.1);
  }

  /** XY routes never wait for each other in a circle. */
  lemma XyDeadlockFree(g: Grid, deps: Graph<Link>)
    requires forall l, m :: Edge(deps, l, m) ==> MayWait(g, l, m)
    ensures Acyclic(deps)
  {
    var rank := (l: Link) => LinkRank(g, l);
    forall l, m | Edge(deps, l, m) ensures LexLess(rank(m), rank(l)) {
      var ni :| WaitsFor(g, ni, l, m);
      LinksDescend(g, ni, l, m);
    }
    LexRankedIsAcyclic(deps, rank);
  }
}
