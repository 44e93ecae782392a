/** Mesh collectives (pulp/floonoc_flex/floonoc_collective_policy.cpp): the fan-out tree of a
    multicast over a box of nodes given by a coordinate mask, and the size of the box. */
module Multicast {
  import opened Wrappers
  import opened Bits
  import opened Digraph

  type Pos = (int, int)

  function MaskX(mask: nat): nat { mask % 0x10000 }

  function MaskY(mask: nat): nat { (mask / 0x10000) % 0x10000 }

  /** The mask has the bits of axis 0 in its low half and those of axis 1 in the next: it matches two
      packed positions exactly if it matches them on both axes. */
  lemma MaskAxes(p: Pos, s: Pos, mask: nat)
    requires 0 <= p.0 < 0x10000 && 0 <= p.1 && 0 <= s.0 < 0x10000 && 0 <= s.1 && mask < 0x1_0000_0000
    ensures Matches(0x10000 * p.1 + p.0, 0x10000 * s.1 + s.0, mask)
      <==> Matches(p.0, s.0, MaskX(mask)) && Matches(p.1, s.1, MaskY(mask))
  {
    assert Pow2(8) == 0x100 && Pow2(16) == 0x10000;
    assert mask == 0x10000 * MaskY(mask) + MaskX(mask);
    MatchesParts(p.0, p.1, s.0, s.1, MaskX(mask), MaskY(mask), 16);
  }

  /** A collective from `src`; `routers` are the positions with a router. */
  datatype Cast = Cast(xFirst: bool, src: Pos, mx: nat, my: nat, routers: set<Pos>) {

    ghost predicate Valid() {
      src.0 >= 0 && src.1 >= 0 && forall p :: p in routers ==> p.0 >= 0 && p.1 >= 0
    }

    /** The axis spread along first, and the other one. */
    function Main(p: Pos): int { if xFirst then p.0 else p.1 }

    function Cross(p: Pos): int { if xFirst then p.1 else p.0 }

    function MainMask(): nat { if xFirst then mx else my }

    function CrossMask(): nat { if xFirst then my else mx }

    function At(main: int, cross: int): Pos { if xFirst then (main, cross) else (cross, main) }

    predicate MainMatched(p: Pos)
      requires src.0 >= 0 && src.1 >= 0
    {
      Main(p) >= 0 && Matches(Main(p), Main(src), MainMask())
    }

    predicate CrossMatched(p: Pos)
      requires src.0 >= 0 && src.1 >= 0
    {
      Cross(p) >= 0 && Matches(Cross(p), Cross(src), CrossMask())
    }

    /** `local_member` */
    predicate Member(p: Pos)
      requires src.0 >= 0 && src.1 >= 0
    {
      MainMatched(p) && CrossMatched(p)
    }

    /** The router at `cur` forwards a copy to the one at `q`. */
    predicate FansTo(cur: Pos, q: Pos)
      requires src.0 >= 0 && src.1 >= 0
    {
      && q in routers
      && (|| (Cross(cur) == Cross(src) && Spreads(Main(cur), Main(src), MainMask(), Main(q)) && Cross(q) == Cross(cur))
          || (MainMatched(cur) && Spreads(Cross(cur), Cross(src), CrossMask(), Cross(q)) && Main(q) == Main(cur)))
    }

    /** Everything between the least and the greatest member coordinates has a router. */
    ghost predicate BoxIsMesh()
      requires src.0 >= 0 && src.1 >= 0
    {
      forall x, y :: AndNot(src.0, mx) <= x <= Or(src.0, mx) && AndNot(src.1, my) <= y <= Or(src.1, my) ==> (x, y) in routers
    }
  }

  /** One step away from the source on one axis, within the range of the members. */
  predicate Spreads(cur: int, src: nat, mask: nat, next: int) {
    || (cur >= src && cur < Or(src, mask) && next == cur + 1)
    || (cur <= src && cur > AndNot(src, mask) && next == cur - 1)
  }

  /** The only router that can forward a copy to `p`: one step back towards the source. */
  function Parent(c: Cast, p: Pos): Pos {
    if c.Cross(p) == c.Cross(c.src) then c.At(Back(c.Main(p), c.Main(c.src)), c.Cross(p))
    else c.At(c.Main(p), Back(c.Cross(p), c.Cross(c.src)))
  }

  function Back(v: int, src: int): int {
    if v > src then v - 1 else v + 1
  }

  function Away(a: int, b: int): nat {
    if a < b then b - a else a - b
  }

  function Distance(c: Cast, p: Pos): nat {
    Away(p.0, c.src.0) + Away(p.1, c.src.1)
  }

  /** Every copy comes from the parent and is one step further from the source. */
  lemma CopyFromParent(c: Cast, cur: Pos, q: Pos)
    requires c.Valid() && c.FansTo(cur, q)
    ensures cur == Parent(c, q) && q != c.src && Distance(c, q) == Distance(c, cur) + 1
  {
  }

  /** A copy's way through the tree. */
  ghost predicate IsBranch(c: Cast, w: seq<Pos>)
    requires c.Valid()
  {
    && w != [] && w[0] == c.src
    && forall i :: 0 < i < |w| ==> BranchStep(c, w, i)
  }

  predicate BranchStep(c: Cast, w: seq<Pos>, i: int)
    requires c.src.0 >= 0 && c.src.1 >= 0 && 0 < i < |w|
  {
    c.FansTo(w[i - 1], w[i])
  }

  /** A copy moves along the first axis only while it is still level with the source on the other one. */
  lemma {:induction false} AxesInOrder(c: Cast, w: seq<Pos>, i: nat)
    requires c.Valid() && IsBranch(c, w) && 0 < i < |w|
    ensures c.xFirst && w[i].0 != w[i - 1].0 ==> forall j :: 0 <= j <= i ==> w[j].1 == c.src.1
    ensures !c.xFirst && w[i].1 != w[i - 1].1 ==> forall j :: 0 <= j <= i ==> w[j].0 == c.src.0
  {
    assert BranchStep(c, w, i);
    if c.Main(w[i]) != c.Main(w[i - 1]) {
      LevelSoFar(c, w, i - 1);
    }
  }

  lemma {:induction false} LevelSoFar(c: Cast, w: seq<Pos>, i: nat)
    requires c.Valid() && IsBranch(c, w) && i < |w| && c.Cross(w[i]) == c.Cross(c.src)
    ensures forall j :: 0 <= j <= i ==> c.Cross(w[j]) == c.Cross(c.src)
  {
    if i > 0 {
      assert BranchStep(c, w, i);
      LevelSoFar(c, w, i - 1);
    }
  }

  lemma {:induction false} BranchDistance(c: Cast, w: seq<Pos>, i: nat)
    requires c.Valid() && IsBranch(c, w) && i < |w|
    ensures Distance(c, w[i]) == i
  {
    if i > 0 {
      BranchDistance(c, w, i - 1);
      assert BranchStep(c, w, i);
      CopyFromParent(c, w[i - 1], w[i]);
    }
  }

  /** The tree ends, and no copy visits a router twice. */
  lemma BranchIsSimple(c: Cast, w: seq<Pos>)
    requires c.Valid() && IsBranch(c, w)
    ensures Distinct(w) && |w| == Distance(c, w[|w| - 1]) + 1
  {
    BranchDistance(c, w, |w| - 1);
    forall i, j | 0 <= i < j < |w| ensures w[i] != w[j] {
      BranchDistance(c, w, i);
      BranchDistance(c, w, j);
    }
  }

  /** At most one copy: a router is reached in one way only. */
  lemma {:induction false} BranchIsUnique(c: Cast, v: seq<Pos>, w: seq<Pos>)
    requires c.Valid() && IsBranch(c, v) && IsBranch(c, w) && v[|v| - 1] == w[|w| - 1]
    ensures v == w
    decreases |v|
  {
    var n := |v| - 1;
    BranchDistance(c, v, n);
    BranchDistance(c, w, |w| - 1);
    if n > 0 {
      assert BranchStep(c, v, n) && BranchStep(c, w, n);
      CopyFromParent(c, v[n - 1], v[n]);
      CopyFromParent(c, w[n - 1], w[n]);
      forall i | 0 < i < n ensures BranchStep(c, v[..n], i) && BranchStep(c, w[..n], i) {
        assert BranchStep(c, v, i) && BranchStep(c, w, i);
      }
      BranchIsUnique(c, v[..n], w[..n]);
      assert v == v[..n] + [v[n]] && w == w[..n] + [w[n]];
    }
  }

  /** The routers of the tree: the source's line along the first axis, and the lines across it that
      hold members. */
  predicate InTree(c: Cast, p: Pos)
    requires c.src.0 >= 0 && c.src.1 >= 0
  {
    && AndNot(c.Main(c.src), c.MainMask()) <= c.Main(p) <= Or(c.Main(c.src), c.MainMask())
    && AndNot(c.Cross(c.src), c.CrossMask()) <= c.Cross(p) <= Or(c.Cross(c.src), c.CrossMask())
    && (c.Cross(p) == c.Cross(c.src) || c.MainMatched(p))
  }

  lemma SourceInRange(c: Cast)
    requires c.Valid()
    ensures InTree(c, c.src)
  {
    MatchesInRange(c.Main(c.src), c.Main(c.src), c.MainMask());
    MatchesInRange(c.Cross(c.src), c.Cross(c.src), c.CrossMask());
  }

  lemma {:induction false} TreeIsReached(c: Cast, p: Pos) returns (w: seq<Pos>)
    requires c.Valid() && c.BoxIsMesh() && InTree(c, p)
    ensures IsBranch(c, w) && w[|w| - 1] == p
    decreases Distance(c, p)
  {
    if p == c.src {
      w := [p];
    } else {
      SourceInRange(c);
      var q := Parent(c, p);
      var v := TreeIsReached(c, q);
      w := v + [p];
      BranchExtends(c, v, p);
    }
  }

  lemma BranchExtends(c: Cast, v: seq<Pos>, p: Pos)
    requires c.Valid() && IsBranch(c, v) && c.FansTo(v[|v| - 1], p)
    ensures IsBranch(c, v + [p])
  {
    var w := v + [p];
    forall i | 0 < i < |w| ensures BranchStep(c, w, i) {
      assert i < |v| ==> BranchStep(c, v, i);
    }
  }

  /** A multicast gives each member exactly one copy: there is one branch to it, and no other. A router
      that is no member keeps none, by the definition of `local_member`. */
  lemma EveryMemberOnce(c: Cast, p: Pos) returns (w: seq<Pos>)
    requires c.Valid() && c.BoxIsMesh() && c.Member(p)
    ensures IsBranch(c, w) && w[|w| - 1] == p && Distinct(w)
    ensures forall v :: IsBranch(c, v) && v[|v| - 1] == p ==> v == w
  {
    MatchesInRange(c.Main(p), c.Main(c.src), c.MainMask());
    MatchesInRange(c.Cross(p), c.Cross(c.src), c.CrossMask());
    w := TreeIsReached(c, p);
    BranchIsSimple(c, w);
    forall v | IsBranch(c, v) && v[|v| - 1] == p ensures v == w {
      BranchIsUnique(c, v, w);
    }
  }

  /** Every router the tree reaches lies within the box. */
  lemma {:induction false} BranchStaysInTree(c: Cast, w: seq<Pos>, i: nat)
    requires c.Valid() && IsBranch(c, w) && i < |w|
    ensures InTree(c, w[i])
  {
    SourceInRange(c);
    if i > 0 {
      BranchStaysInTree(c, w, i - 1);
      assert BranchStep(c, w, i);
    }
  }

  /** `MeshXYCollectivePolicy` */
  class MeshPolicy {
    const xFirst: bool
    var nodeCoords: map<int, Pos>
    var coordToId: map<Pos, int>

    ghost predicate Valid()
      reads this
    {
      && (forall n :: n in nodeCoords ==> nodeCoords[n] in coordToId && nodeCoords[n].0 >= 0 && nodeCoords[n].1 >= 0)
      && forall p :: p in coordToId ==> coordToId[p] in nodeCoords && nodeCoords[coordToId[p]] == p
    }

    /** The collective rooted at node `src`. */
    function CastFrom(src: int, mask: nat): Cast
      requires src in nodeCoords
      reads this
    {
      Cast(xFirst, nodeCoords[src], MaskX(mask), MaskY(mask), coordToId.Keys)
    }

    lemma CastIsValid(src: int, mask: nat)
      requires Valid() && src in nodeCoords
      ensures CastFrom(src, mask).Valid()
    {
      forall p | p in coordToId ensures p.0 >= 0 && p.1 >= 0 {
        var n := coordToId[p];
        assert n in nodeCoords && nodeCoords[n].0 >= 0 && nodeCoords[n].1 >= 0;
      }
    }

    /** `entries` lists every node once, in any order. */
    constructor (xFirst: bool, entries: seq<(int, Pos)>)
      requires forall i, j :: 0 <= i < j < |entries| ==> entries[i].0 != entries[j].0
      requires forall i :: 0 <= i < |entries| ==> entries[i].1.0 >= 0 && entries[i].1.1 >= 0
      ensures Valid() && this.xFirst == xFirst
      ensures forall i :: 0 <= i < |entries| ==> entries[i].0 in nodeCoords && nodeCoords[entries[i].0] == entries[i].1
      ensures forall n :: n in nodeCoords ==> exists i :: 0 <= i < |entries| && entries[i].0 == n
    {
      this.xFirst := xFirst;
      var coords: map<int, Pos> := map[];
      var ids: map<Pos, int> := map[];
      for i := 0 to |entries|
        invariant forall k :: 0 <= k < i ==> entries[k].0 in coords && coords[entries[k].0] == entries[k].1
        invariant forall n :: n in coords ==> exists k :: 0 <= k < i && entries[k].0 == n
        invariant forall n :: n in coords ==> coords[n] in ids && coords[n].0 >= 0 && coords[n].1 >= 0
        invariant forall p :: p in ids ==> ids[p] in coords && coords[ids[p]] == p
      {
        coords := coords[entries[i].0 := entries[i].1];
        ids := ids[entries[i].1 := entries[i].0];
      }
      nodeCoords, coordToId := coords, ids;
    }

    predicate IsMember(node: int, ref: int, mask: nat)
      requires Valid()
      reads this
    {
      node in nodeCoords && ref in nodeCoords && CastFrom(ref, mask).Member(nodeCoords[node])
    }

    function MemberCount(ref: int, mask: nat): int {
      Pow2(PopCount(MaskX(mask)) + PopCount(MaskY(mask)))
    }

    /** The fan-out names the routers at the given positions. */
    ghost predicate Names(fanout: seq<(int, int)>, to: seq<Pos>)
      reads this
    {
      |fanout| == |to| && forall k :: 0 <= k < |to| ==> to[k] in coordToId && fanout[k] == (coordToId[to[k]], 0)
    }

    /** Adds the neighbour at `p` to the fan-out, if there is a router. */
    method Push(cond: bool, p: Pos, fanout: seq<(int, int)>, ghost to: seq<Pos>)
      returns (fanout': seq<(int, int)>, ghost to': seq<Pos>)
      requires Names(fanout, to)
      ensures to' == to + If(cond && p in coordToId.Keys, p) && Names(fanout', to')
    {
      fanout', to' := fanout, to;
      if cond && p in coordToId {
        fanout', to' := fanout + [(coordToId[p], 0)], to + [p];
      }
    }

    /** The two neighbours on the first axis, then the two on the second one. */
    method PushAll(goes: seq<bool>, p: seq<Pos>) returns (fanout: seq<(int, int)>, ghost to: seq<Pos>)
      requires |goes| == 4 && |p| == 4
      ensures Names(fanout, to)
      ensures to == If(goes[0] && p[0] in coordToId.Keys, p[0]) + If(goes[1] && p[1] in coordToId.Keys, p[1])
                  + If(goes[2] && p[2] in coordToId.Keys, p[2]) + If(goes[3] && p[3] in coordToId.Keys, p[3])
    {
      fanout, to := [], [];
      fanout, to := Push(goes[0], p[0], fanout, to);
      fanout, to := Push(goes[1], p[1], fanout, to);
      fanout, to := Push(goes[2], p[2], fanout, to);
      fanout, to := Push(goes[3], p[3], fanout, to);
    }

    /** The conditions of the four directions, in the order they are tried. */
    method Directions(x: int, y: int, sx: nat, sy: nat, mx: nat, my: nat, ghost c: Cast)
      returns (goes: seq<bool>, p: seq<Pos>, localMember: bool)
      requires x >= 0 && y >= 0 && c.src == (sx, sy) && c.mx == mx && c.my == my && c.xFirst == xFirst
      ensures |goes| == 4 && |p| == 4 && localMember == c.Member((x, y))
      ensures goes == [Goes(c, (x, y), 0), Goes(c, (x, y), 1), Goes(c, (x, y), 2), Goes(c, (x, y), 3)]
      ensures p == [Neighbour(c, (x, y), 0), Neighbour(c, (x, y), 1), Neighbour(c, (x, y), 2), Neighbour(c, (x, y), 3)]
    {
      var xMatched := AndNot(x, mx) == AndNot(sx, mx);
      var yMatched := AndNot(y, my) == AndNot(sy, my);
      localMember := xMatched && yMatched;
      var right := x >= sx && x < Or(sx, mx);
      var left := x <= sx && x > AndNot(sx, mx);
      var up := y >= sy && y < Or(sy, my);
      var down := y <= sy && y > AndNot(sy, my);
      if xFirst {
        goes := [y == sy && right, y == sy && left, xMatched && up, xMatched && down];
        p := [(x + 1, y), (x - 1, y), (x, y + 1), (x, y - 1)];
      } else {
        goes := [x == sx && up, x == sx && down, yMatched && right, yMatched && left];
        p := [(x, y + 1), (x, y - 1), (x + 1, y), (x - 1, y)];
      }
    }

    /** `analyze`: the neighbours to forward to, each once, and whether the own NI gets a copy. */
    method Analyze(node: int, src: int, mask: nat)
      returns (fanout: seq<(int, int)>, localMember: bool, ghost to: seq<Pos>)
      requires Valid()
      ensures Names(fanout, to) && (localMember <==> IsMember(node, src, mask))
      ensures if node in nodeCoords && src in nodeCoords
              then IsFan(CastFrom(src, mask), nodeCoords[node], to) else fanout == []
    {
      if node !in nodeCoords || src !in nodeCoords {
        return [], false, [];
      }
      ghost var c := CastFrom(src, mask);
      CastIsValid(src, mask);
      var (x, y) := nodeCoords[node];
      var (sx, sy) := nodeCoords[src];
      var goes, p;
      goes, p, localMember := Directions(x, y, sx, sy, MaskX(mask), MaskY(mask), c);
      fanout, to := PushAll(goes, p);
      FanIsExact(c, (x, y), to);
    }
  }

  function If<T>(cond: bool, t: T): seq<T> {
    if cond then [t] else []
  }

  /** `to` lists the routers that a copy goes on to, each once. */
  ghost predicate IsFan(c: Cast, cur: Pos, to: seq<Pos>)
    requires c.src.0 >= 0 && c.src.1 >= 0
  {
    Distinct(to) && forall q :: q in to <==> c.FansTo(cur, q)
  }

  lemma FourOptions(b0: bool, p0: Pos, b1: bool, p1: Pos, b2: bool, p2: Pos, b3: bool, p3: Pos, to: seq<Pos>)
    requires p0 != p1 && p0 != p2 && p0 != p3 && p1 != p2 && p1 != p3 && p2 != p3
    requires to == If(b0, p0) + If(b1, p1) + If(b2, p2) + If(b3, p3)
    ensures Distinct(to)
    ensures forall q :: q in to <==> (b0 && q == p0) || (b1 && q == p1) || (b2 && q == p2) || (b3 && q == p3)
  {
  }

  /** The neighbour in direction `d`: forth and back on the first axis, then on the second one. */
  function Neighbour(c: Cast, cur: Pos, d: int): Pos {
    var (m, k) := (c.Main(cur), c.Cross(cur));
    if d == 0 then c.At(m + 1, k) else if d == 1 then c.At(m - 1, k) else if d == 2 then c.At(m, k + 1) else c.At(m, k - 1)
  }

  predicate Goes(c: Cast, cur: Pos, d: int)
    requires c.src.0 >= 0 && c.src.1 >= 0
  {
    var (m, k) := (c.Main(cur), c.Cross(cur));
    var (sm, sk) := (c.Main(c.src), c.Cross(c.src));
    if d == 0 then k == sk && m >= sm && m < Or(sm, c.MainMask())
    else if d == 1 then k == sk && m <= sm && m > AndNot(sm, c.MainMask())
    else if d == 2 then c.MainMatched(cur) && k >= sk && k < Or(sk, c.CrossMask())
    else c.MainMatched(cur) && k <= sk && k > AndNot(sk, c.CrossMask())
  }

  lemma FanDirection(c: Cast, cur: Pos, q: Pos, d: int)
    requires c.Valid() && 0 <= d < 4 && q == Neighbour(c, cur, d)
    ensures c.FansTo(cur, q) <==> Goes(c, cur, d) && q in c.routers
  {
  }

  lemma FanIsNeighbour(c: Cast, cur: Pos, q: Pos) returns (d: int)
    requires c.Valid() && c.FansTo(cur, q)
    ensures 0 <= d < 4 && q == Neighbour(c, cur, d)
  {
    var (m, k) := (c.Main(cur), c.Cross(cur));
    d := if c.Main(q) == m + 1 then 0 else if c.Main(q) == m - 1 then 1 else if c.Cross(q) == k + 1 then 2 else 3;
  }

  predicate Takes(c: Cast, cur: Pos, d: int)
    requires c.src.0 >= 0 && c.src.1 >= 0
  {
    Goes(c, cur, d) && Neighbour(c, cur, d) in c.routers
  }

  lemma FanIsExact(c: Cast, cur: Pos, to: seq<Pos>)
    requires c.Valid()
    requires to == If(Takes(c, cur, 0), Neighbour(c, cur, 0)) + If(Takes(c, cur, 1), Neighbour(c, cur, 1))
                 + If(Takes(c, cur, 2), Neighbour(c, cur, 2)) + If(Takes(c, cur, 3), Neighbour(c, cur, 3))
    ensures IsFan(c, cur, to)
  {
    FourOptions(Takes(c, cur, 0), Neighbour(c, cur, 0), Takes(c, cur, 1), Neighbour(c, cur, 1),
                Takes(c, cur, 2), Neighbour(c, cur, 2), Takes(c, cur, 3), Neighbour(c, cur, 3), to);
    forall q ensures q in to <==> c.FansTo(cur, q) {
      if c.FansTo(cur, q) {
        var d := FanIsNeighbour(c, cur, q);
        FanDirection(c, cur, q, d);
      }
      if q in to {
        var d :| 0 <= d < 4 && Takes(c, cur, d) && q == Neighbour(c, cur, d);
        FanDirection(c, cur, q, d);
      }
    }
  }

  function Grid(a: set<int>, b: set<int>): set<Pos> {
    set x, y | x in a && y in b :: (x, y)
  }

  function Line(x: int, b: set<int>): set<Pos> {
    set y | y in b :: (x, y)
  }

  lemma {:induction false} LineSize(x: int, b: set<int>)
    ensures |Line(x, b)| == |b|
    decreases |b|
  {
    if !exists y :: y in b {
      assert b <= {};
      assert Line(x, b) <= {};
    } else {
      var y :| y in b;
      LineSize(x, b - {y});
      assert Line(x, b) == Line(x, b - {y}) + {(x, y)};
    }
  }

  lemma {:induction false} GridSize(a: set<int>, b: set<int>)
    ensures |Grid(a, b)| == |a| * |b|
    decreases |a|
  {
    if !exists x :: x in a {
      assert a <= {};
      assert Grid(a, b) <= {};
    } else {
      var x :| x in a;
      GridSize(a - {x}, b);
      LineSize(x, b);
      assert Grid(a, b) == Grid(a - {x}, b) + Line(x, b);
      assert Grid(a - {x}, b) !! Line(x, b);
      assert |a| * |b| == (|a| - 1) * |b| + |b|;
    }
  }

  /** The positions of the nodes, when each has its own. */
  lemma {:induction false} PositionsCount(nodes: set<int>, coords: map<int, Pos>)
    requires nodes <= coords.Keys
    requires forall m, n :: m in nodes && n in nodes && m != n ==> coords[m] != coords[n]
    ensures |set n | n in nodes :: coords[n]| == |nodes|
    decreases |nodes|
  {
    var all := set n | n in nodes :: coords[n];
    if !exists n :: n in nodes {
      assert nodes <= {};
      assert all <= {};
    } else {
      var n :| n in nodes;
      PositionsCount(nodes - {n}, coords);
      assert all == (set k | k in nodes - {n} :: coords[k]) + {coords[n]};
    }
  }

  /** The positions of a group are those that match on both axes. */
  lemma GroupPositions(c: Cast, p: Pos)
    requires c.Valid()
    ensures c.Member(p) <==> p in Grid(MatchSet(c.src.0, c.mx), MatchSet(c.src.1, c.my))
  {
    InMatchSet(p.0, c.src.0, c.mx);
    InMatchSet(p.1, c.src.1, c.my);
  }

  lemma GroupIsGrid(policy: MeshPolicy, ref: int, mask: nat, nodes: set<int>)
    requires policy.Valid() && ref in policy.nodeCoords && policy.CastFrom(ref, mask).BoxIsMesh()
    requires nodes == set n | n in policy.nodeCoords && policy.IsMember(n, ref, mask)
    ensures
      var c := policy.CastFrom(ref, mask);
      (set n | n in nodes :: policy.nodeCoords[n]) == Grid(MatchSet(c.src.0, c.mx), MatchSet(c.src.1, c.my))
  {
    var c := policy.CastFrom(ref, mask);
    policy.CastIsValid(ref, mask);
    forall p ensures p in (set n | n in nodes :: policy.nodeCoords[n]) <==> c.Member(p) {
      if c.Member(p) {
        MatchesInRange(p.0, c.src.0, c.mx);
        MatchesInRange(p.1, c.src.1, c.my);
        assert policy.coordToId[p] in nodes;
      }
    }
    forall p ensures c.Member(p) <==> p in Grid(MatchSet(c.src.0, c.mx), MatchSet(c.src.1, c.my)) {
      GroupPositions(c, p);
    }
  }

  /** `member_count` is the number of nodes that `is_member` accepts, when each node has a position of
      its own and the box is all routers. */
  lemma MemberCountExact(policy: MeshPolicy, ref: int, mask: nat)
    requires policy.Valid() && ref in policy.nodeCoords && policy.CastFrom(ref, mask).BoxIsMesh()
    requires forall m, n :: m in policy.nodeCoords && n in policy.nodeCoords && m != n ==>
      policy.nodeCoords[m] != policy.nodeCoords[n]
    ensures |set n | n in policy.nodeCoords && policy.IsMember(n, ref, mask)| == policy.MemberCount(ref, mask)
  {
    var c := policy.CastFrom(ref, mask);
    var nodes := set n | n in policy.nodeCoords && policy.IsMember(n, ref, mask);
    GroupIsGrid(policy, ref, mask, nodes);
    PositionsCount(nodes, policy.nodeCoords);
    GridSize(MatchSet(c.src.0, c.mx), MatchSet(c.src.1, c.my));
    MatchCount(c.src.0, c.mx);
    MatchCount(c.src.1, c.my);
    Pow2Sum(PopCount(c.mx), PopCount(c.my));
  }
}
