/** Next-hop tables, the walk a packet takes through them, and when that walk delivers. */
module Walks {
  import opened Wrappers
  import opened Digraph
  import opened Topology

  /** `{router: {dest_ni: next_node}}` */
  type Tables = map<int, map<int, int>>

  predicate HasHop(tables: Tables, u: int, dst: int) {
    u in tables && dst in tables[u]
  }

  /** The table sends a packet for `dst` from router `u` over an existing link to `v`. */
  predicate Hop(net: Network, tables: Tables, dst: int, u: int, v: int)
    requires net.Valid()
  {
    net.IsRouter(u) && HasHop(tables, u, dst) && tables[u][dst] == v && v in net.adj[u]
  }

  /** `p` starts at NI `src`, enters its router, and follows the table until, at the latest, `dst`. */
  ghost predicate IsWalk(net: Network, tables: Tables, src: int, dst: int, p: seq<int>)
    requires net.Valid()
  {
    && |p| >= 2 && p[0] == src && net.IsNi(src) && net.adj[src] == [p[1]]
    && forall i :: 1 <= i < |p| - 1 ==> p[i] != dst && Hop(net, tables, dst, p[i], p[i + 1])
  }

  ghost predicate Delivered(net: Network, tables: Tables, src: int, dst: int, p: seq<int>)
    requires net.Valid()
  {
    IsWalk(net, tables, src, dst, p) && p[|p| - 1] == dst && src != dst
  }

  /** A table leaves a packet no choice: two walks agree as far as both go. */
  lemma {:induction false} WalksAgree(net: Network, tables: Tables, src: int, dst: int, p: seq<int>, q: seq<int>, i: nat)
    requires net.Valid() && IsWalk(net, tables, src, dst, p) && IsWalk(net, tables, src, dst, q)
    requires i < |p| && i < |q|
    ensures p[i] == q[i]
  {
    if i == 1 {
      assert net.adj[src] == [p[1]] == [q[1]];
    } else if i > 1 {
      WalksAgree(net, tables, src, dst, p, q, i - 1);
      assert Hop(net, tables, dst, p[i - 1], p[i]) && Hop(net, tables, dst, q[i - 1], q[i]);
    }
  }

  lemma DeliveredIsUnique(net: Network, tables: Tables, src: int, dst: int, p: seq<int>, q: seq<int>)
    requires net.Valid() && Delivered(net, tables, src, dst, p) && Delivered(net, tables, src, dst, q)
    ensures p == q
  {
    var n := if |p| <= |q| then |p| else |q|;
    forall i | 0 <= i < n ensures p[i] == q[i] {
      WalksAgree(net, tables, src, dst, p, q, i);
    }
    assert p[n - 1] == q[n - 1] == dst;
    assert net.IsRouter(p[1]) by {
      NiRouterIsRouter(net, src);
    }
  }

  /** Once a walk is back at a node, it repeats for ever. */
  lemma {:induction false} WalkRepeats(net: Network, tables: Tables, src: int, dst: int, p: seq<int>, i: nat, j: nat, k: nat)
    requires net.Valid() && IsWalk(net, tables, src, dst, p)
    requires 1 <= i < j && j + k < |p| && p[i] == p[j]
    ensures p[i + k] == p[j + k]
  {
    if k > 0 {
      WalkRepeats(net, tables, src, dst, p, i, j, k - 1);
      assert Hop(net, tables, dst, p[i + k - 1], p[i + k]);
      assert Hop(net, tables, dst, p[j + k - 1], p[j + k]);
    }
  }

  /** A delivered walk visits no node twice. */
  lemma DeliveredIsSimple(net: Network, tables: Tables, src: int, dst: int, p: seq<int>)
    requires net.Valid() && Delivered(net, tables, src, dst, p)
    ensures Distinct(p)
  {
    NiRouterIsRouter(net, src);
    forall i, j | 0 <= i < j < |p| ensures p[i] != p[j] {
      if i == 0 {
        assert j == |p| - 1 || j == 1 || Hop(net, tables, dst, p[j], p[j + 1]);
      } else if p[i] == p[j] {
        WalkRepeats(net, tables, src, dst, p, i, j, |p| - 1 - j);
      }
    }
  }

  /** Only the two ends of a walk are NIs. */
  lemma DeliveredEnds(net: Network, tables: Tables, src: int, dst: int, p: seq<int>)
    requires net.Valid() && net.IsNi(dst) && Delivered(net, tables, src, dst, p)
    ensures forall i :: 0 <= i < |p| ==> (net.IsRouter(p[i]) <==> 0 < i < |p| - 1)
  {
    forall i | 0 < i < |p| - 1 ensures net.IsRouter(p[i]) {
      assert Hop(net, tables, dst, p[i], p[i + 1]);
    }
  }

  lemma WalkInNetwork(net: Network, tables: Tables, src: int, dst: int, p: seq<int>)
    requires net.Valid() && IsWalk(net, tables, src, dst, p)
    ensures forall i :: 0 <= i < |p| ==> p[i] in net.adj
  {
    NiRouterIsRouter(net, src);
    forall i | 0 <= i < |p| ensures p[i] in net.adj {
      if i >= 2 {
        assert Hop(net, tables, dst, p[i - 1], p[i]);
      }
    }
  }

  /** The length guard is a loop detector: it fires only on a walk that visits a node twice,
      and then the packet is never delivered. */
  lemma GuardFindsLoop(net: Network, tables: Tables, src: int, dst: int, p: seq<int>)
    requires net.Valid() && IsWalk(net, tables, src, dst, p) && p[|p| - 1] != dst
    requires |p| > |net.adj| + 1
    ensures !Distinct(p)
    ensures forall q :: !Delivered(net, tables, src, dst, q)
  {
    WalkInNetwork(net, tables, src, dst, p);
    if Distinct(p) {
      DistinctFits(p, net.adj.Keys);
    }
    forall q | Delivered(net, tables, src, dst, q) ensures false {
      DeliveredIsSimple(net, tables, src, dst, q);
      WalkInNetwork(net, tables, src, dst, q);
      DistinctFits(q, net.adj.Keys);
      NoStop(net, tables, src, dst, p, q);
    }
  }

  /** A delivered walk is longer than every undelivered one of the same packet. */
  lemma NoStop(net: Network, tables: Tables, src: int, dst: int, p: seq<int>, q: seq<int>)
    requires net.Valid() && IsWalk(net, tables, src, dst, p) && p[|p| - 1] != dst
    requires Delivered(net, tables, src, dst, q)
    ensures |p| < |q| && p == q[..|p|]
    ensures Hop(net, tables, dst, p[|p| - 1], q[|p|])
  {
    NiRouterIsRouter(net, src);
    if |q| <= |p| {
      WalksAgree(net, tables, src, dst, p, q, |q| - 1);
    } else {
      forall i | 0 <= i < |p| ensures p[i] == q[i] {
        WalksAgree(net, tables, src, dst, p, q, i);
      }
      assert q[|p| - 1] == p[|p| - 1];
    }
  }

  /** Any quantity that drops at every hop towards `dst` gets every packet there. */
  ghost predicate Descends(net: Network, tables: Tables, dst: int, measure: int -> nat)
    requires net.Valid()
  {
    forall u :: net.IsRouter(u) ==>
      && HasHop(tables, u, dst) && Hop(net, tables, dst, u, tables[u][dst])
      && (tables[u][dst] == dst
          || (net.IsRouter(tables[u][dst]) && measure(tables[u][dst]) < measure(u)))
  }

  lemma {:induction false} DescendFrom(net: Network, tables: Tables, src: int, dst: int, measure: int -> nat, p: seq<int>)
    returns (q: seq<int>)
    requires net.Valid() && Descends(net, tables, dst, measure) && net.IsNi(dst) && src != dst
    requires IsWalk(net, tables, src, dst, p) && net.IsRouter(p[|p| - 1])
    ensures Delivered(net, tables, src, dst, q)
    ensures |q| <= |p| + 1 + measure(p[|p| - 1])
    decreases measure(p[|p| - 1])
  {
    var u := p[|p| - 1];
    var v := tables[u][dst];
    q := p + [v];
    assert Hop(net, tables, dst, u, v);
    if v != dst {
      q := DescendFrom(net, tables, src, dst, measure, q);
    }
  }

  /** A quantity that drops by exactly one at every hop is the number of router hops. */
  ghost predicate DescendsByOne(net: Network, tables: Tables, dst: int, measure: int -> nat)
    requires net.Valid()
  {
    && Descends(net, tables, dst, measure)
    && forall u :: net.IsRouter(u) ==>
         if tables[u][dst] == dst then measure(u) == 0 else measure(tables[u][dst]) == measure(u) - 1
  }

  lemma {:induction false} HopsLeft(net: Network, tables: Tables, src: int, dst: int, measure: int -> nat, p: seq<int>, i: nat)
    requires net.Valid() && DescendsByOne(net, tables, dst, measure) && Delivered(net, tables, src, dst, p)
    requires net.IsNi(dst) && 1 <= i < |p| - 1
    ensures net.IsRouter(p[i]) && |p| - 2 - i == measure(p[i])
    decreases |p| - i
  {
    assert Hop(net, tables, dst, p[i], p[i + 1]);
    if i + 1 < |p| - 1 {
      HopsLeft(net, tables, src, dst, measure, p, i + 1);
    }
  }
}
