/** `Topology` (pulp/floonoc_v2/floonoc_v2_routing.py): routers, network interfaces (NIs) and
    bidirectional links kept in insertion order. */
module Topology {
  import opened Wrappers
  import opened Digraph

  datatype TopologyError =
    | DeclaredTwice(node: int)
    | NegativeId(node: int)
    | UnknownNode(node: int)
    | SelfLink(node: int)
    | DuplicateLink(a: int, b: int)
    | NiToNi(a: int, b: int)
    | BadPortOrder(node: int)
    | NiLinks(node: int)

  /** What the routing algorithms read of a topology. */
  datatype Network = Network(routers: seq<int>, nis: seq<int>, adj: map<int, seq<int>>, coords: map<int, seq<int>>) {

    predicate IsRouter(n: int) { n in routers }

    predicate IsNi(n: int) { n in nis }

    /** The two directions of every link are both recorded, once. */
    ghost predicate LinksOk() {
      && (forall a, b :: a in adj && b in adj[a] ==>
            b in adj && a in adj[b] && a != b && !(IsNi(a) && IsNi(b)))
      && (forall a :: a in adj ==> Distinct(adj[a]))
    }

    ghost predicate Valid() {
      && (forall n :: n in adj <==> IsRouter(n) || IsNi(n))
      && (forall n :: n in adj ==> n >= 0)
      && (forall n :: IsRouter(n) ==> !IsNi(n))
      && Distinct(routers) && Distinct(nis)
      && (forall n :: n in coords ==> IsRouter(n))
      && LinksOk()
    }

    /** The router an NI is attached to. */
    function NiRouter(ni: int): Result<int, TopologyError>
      requires ni in adj
    {
      if |adj[ni]| != 1 then Err(NiLinks(ni)) else Ok(adj[ni][0])
    }

    /** Router neighbours of a node, in link order. */
    function RouterAdj(r: int): seq<int>
      requires r in adj
    {
      Routers(adj[r])
    }

    function Routers(nodes: seq<int>): (r: seq<int>)
      ensures forall n :: n in r <==> n in nodes && IsRouter(n)
    {
      if nodes == [] then []
      else (if IsRouter(nodes[0]) then [nodes[0]] else []) + Routers(nodes[1..])
    }
  }

  /** Position of a node in a list of neighbours. */
  function IndexOf(s: seq<int>, x: int): (r: nat)
    requires x in s
    ensures r < |s| && s[r] == x && x !in s[..r]
  {
    if s[0] == x then 0 else 1 + IndexOf(s[1..], x)
  }

  /** Position of `n` among the links of `u`; 0 for other nodes. */
  function LinkRank(net: Network, u: int, n: int): int {
    if u in net.adj && n in net.adj[u] then IndexOf(net.adj[u], n) else 0
  }

  lemma IndexIsLeast(s: seq<int>, i: int)
    requires 0 <= i < |s|
    ensures s[i] in s && IndexOf(s, s[i]) <= i
  {
    var k := IndexOf(s, s[i]);
    assert forall j :: 0 <= j < k ==> s[..k][j] == s[j];
  }

  lemma IndexInRest(s: seq<int>, x: int)
    requires Distinct(s) && s != [] && x in s[1..]
    ensures x in s && x != s[0] && IndexOf(s, x) == 1 + IndexOf(s[1..], x)
  {
    var i :| 0 <= i < |s| - 1 && s[1..][i] == x;
    assert s[i + 1] == x;
  }

  /** The `i`-th element of `r` comes before the `j`-th in `nodes`. */
  predicate Before(nodes: seq<int>, r: seq<int>, i: int, j: int)
    requires 0 <= i < |r| && 0 <= j < |r|
  {
    r[i] in nodes && r[j] in nodes && IndexOf(nodes, r[i]) < IndexOf(nodes, r[j])
  }

  lemma BeforeInRest(nodes: seq<int>, r: seq<int>, i: int, j: int)
    requires Distinct(nodes) && nodes != [] && 0 <= i < |r| && 0 <= j < |r| && Before(nodes[1..], r, i, j)
    ensures Before(nodes, r, i, j)
  {
    IndexInRest(nodes, r[i]);
    IndexInRest(nodes, r[j]);
  }

  lemma HeadIsBefore(nodes: seq<int>, tail: seq<int>, j: int)
    requires Distinct(nodes) && nodes != [] && 0 <= j < |tail| && tail[j] in nodes[1..]
    ensures Before(nodes, [nodes[0]] + tail, 0, j + 1)
  {
    IndexInRest(nodes, tail[j]);
  }

  lemma RoutersUnfold(net: Network, nodes: seq<int>)
    requires Distinct(nodes) && nodes != []
    ensures net.Routers(nodes) == (if net.IsRouter(nodes[0]) then [nodes[0]] else []) + net.Routers(nodes[1..])
    ensures Distinct(nodes[1..]) && forall k :: 0 <= k < |net.Routers(nodes[1..])| ==> net.Routers(nodes[1..])[k] in nodes[1..]
  {
    forall k | 0 <= k < |net.Routers(nodes[1..])| ensures net.Routers(nodes[1..])[k] in nodes[1..] {
      assert net.Routers(nodes[1..])[k] in net.Routers(nodes[1..]);
    }
  }

  ghost predicate ListedInOrder(nodes: seq<int>, r: seq<int>) {
    forall i, j :: 0 <= i < j < |r| ==> Before(nodes, r, i, j)
  }

  lemma KeepsOrder(nodes: seq<int>, tail: seq<int>)
    requires Distinct(nodes) && nodes != [] && ListedInOrder(nodes[1..], tail)
    ensures ListedInOrder(nodes, tail)
  {
    forall i, j | 0 <= i < j < |tail| ensures Before(nodes, tail, i, j) {
      assert Before(nodes[1..], tail, i, j);
      BeforeInRest(nodes, tail, i, j);
    }
  }

  lemma PutsFirst(nodes: seq<int>, tail: seq<int>)
    requires Distinct(nodes) && nodes != [] && ListedInOrder(nodes, tail)
    requires forall k :: 0 <= k < |tail| ==> tail[k] in nodes[1..]
    ensures ListedInOrder(nodes, [nodes[0]] + tail)
  {
    var r := [nodes[0]] + tail;
    forall i, j | 0 <= i < j < |r| ensures Before(nodes, r, i, j) {
      if i == 0 {
        HeadIsBefore(nodes, tail, j - 1);
      } else {
        assert Before(nodes, tail, i - 1, j - 1);
      }
    }
  }

  /** Router neighbours are listed in link order. */
  lemma {:induction false} RoutersInOrder(net: Network, nodes: seq<int>)
    requires Distinct(nodes)
    ensures ListedInOrder(nodes, net.Routers(nodes))
    decreases |nodes|
  {
    if nodes != [] {
      var tail := net.Routers(nodes[1..]);
      RoutersUnfold(net, nodes);
      RoutersInOrder(net, nodes[1..]);
      KeepsOrder(nodes, tail);
      if net.IsRouter(nodes[0]) {
        PutsFirst(nodes, tail);
      } else {
        assert [] + tail == tail;
      }
    }
  }

  /** The NI's router is a router: two NIs are never linked. */
  lemma NiRouterIsRouter(net: Network, ni: int)
    requires net.Valid() && net.IsNi(ni) && net.NiRouter(ni).Ok?
    ensures net.IsRouter(net.NiRouter(ni).value) && net.NiRouter(ni).value in net.adj
    ensures ni in net.adj[net.NiRouter(ni).value]
  {
    assert net.adj[ni][0] in net.adj[ni];
  }

  function WithLink(net: Network, a: int, b: int): Network
    requires a in net.adj && b in net.adj && a != b
  {
    net.(adj := net.adj[a := net.adj[a] + [b]][b := net.adj[b] + [a]])
  }

  /** A new link keeps both directions recorded, once. */
  lemma WithLinkValid(net: Network, a: int, b: int)
    requires net.Valid() && a in net.adj && b in net.adj && a != b && b !in net.adj[a]
    requires !(net.IsNi(a) && net.IsNi(b))
    ensures WithLink(net, a, b).Valid()
  {
    var after := WithLink(net, a, b);
    assert a !in net.adj[b];
    forall x | x in after.adj ensures Distinct(after.adj[x]) {
      assert Distinct(net.adj[x]);
    }
    forall x, y | x in after.adj && y in after.adj[x]
      ensures y in after.adj && x in after.adj[y] && x != y && !(after.IsNi(x) && after.IsNi(y))
    {
      assert y in net.adj[x] || (x == a && y == b) || (x == b && y == a);
      if y in net.adj[x] {
        assert x in net.adj[y];
      }
    }
  }

  function WithRouter(net: Network, id: int, coord: Option<seq<int>>): Network {
    Network(net.routers + [id], net.nis, net.adj[id := []],
            if coord.Some? then net.coords[id := coord.value] else net.coords)
  }

  function WithNi(net: Network, id: int): Network {
    Network(net.routers, net.nis + [id], net.adj[id := []], net.coords)
  }

  lemma WithRouterValid(net: Network, id: int, coord: Option<seq<int>>)
    requires net.Valid() && id >= 0 && id !in net.adj
    ensures WithRouter(net, id, coord).Valid()
  {
    assert forall n :: n in WithRouter(net, id, coord).routers <==> n in net.routers || n == id;
  }

  lemma WithNiValid(net: Network, id: int)
    requires net.Valid() && id >= 0 && id !in net.adj
    ensures WithNi(net, id).Valid()
  {
    assert forall n :: n in WithNi(net, id).nis <==> n in net.nis || n == id;
  }

  class Topology {
    var routers: seq<int>
    var nis: seq<int>
    var adj: map<int, seq<int>>
    var coords: map<int, seq<int>>

    function View(): Network
      reads this
    {
      Network(routers, nis, adj, coords)
    }

    constructor ()
      ensures View() == Network([], [], map[], map[]) && View().Valid()
    {
      routers, nis, adj, coords := [], [], map[], map[];
    }

    /** `_add_node`: the two checks every new node passes. */
    function NewNodeError(id: int): Option<TopologyError>
      reads this
    {
      if id in adj then Some(DeclaredTwice(id)) else if id < 0 then Some(NegativeId(id)) else None
    }

    method AddRouter(id: int, coord: Option<seq<int>>) returns (r: Result<(), TopologyError>)
      requires View().Valid()
      modifies this
      ensures View().Valid()
      ensures r.Ok? <==> id >= 0 && id !in old(adj)
      ensures r.Err? ==> View() == old(View()) && r.error in {DeclaredTwice(id), NegativeId(id)}
      ensures r.Ok? ==> View() == Network(old(routers) + [id], old(nis), old(adj)[id := []],
                                          if coord.Some? then old(coords)[id := coord.value] else old(coords))
    {
      var e := NewNodeError(id);
      if e.Some? {
        return Err(e.value);
      }
      WithRouterValid(View(), id, coord);
      adj := adj[id := []];
      routers := routers + [id];
      if coord.Some? {
        coords := coords[id := coord.value];
      }
      r := Ok(());
    }

    method AddNi(id: int) returns (r: Result<(), TopologyError>)
      requires View().Valid()
      modifies this
      ensures View().Valid()
      ensures r.Ok? <==> id >= 0 && id !in old(adj)
      ensures r.Err? ==> View() == old(View()) && r.error in {DeclaredTwice(id), NegativeId(id)}
      ensures r.Ok? ==> View() == Network(old(routers), old(nis) + [id], old(adj)[id := []], old(coords))
    {
      var e := NewNodeError(id);
      if e.Some? {
        return Err(e.value);
      }
      WithNiValid(View(), id);
      adj := adj[id := []];
      nis := nis + [id];
      r := Ok(());
    }

    /** A link is added in both directions, at the end of each node's list. */
    method AddLink(a: int, b: int) returns (r: Result<(), TopologyError>)
      requires View().Valid()
      modifies this
      ensures View().Valid()
      ensures r.Ok? <==>
                a in old(adj) && b in old(adj) && a != b && b !in old(adj)[a] && !(a in old(nis) && b in old(nis))
      ensures r.Err? ==> View() == old(View())
      ensures r.Ok? ==> View() == WithLink(old(View()), a, b)
      ensures r.Ok? ==> a in adj && b in adj && adj[a] == old(adj)[a] + [b] && adj[b] == old(adj)[b] + [a]
    {
      if a !in adj {
        return Err(UnknownNode(a));
      }
      if b !in adj {
        return Err(UnknownNode(b));
      }
      if a == b {
        return Err(SelfLink(a));
      }
      if b in adj[a] {
        return Err(DuplicateLink(a, b));
      }
      if a in nis && b in nis {
        return Err(NiToNi(a, b));
      }
      WithLinkValid(View(), a, b);
      adj := adj[a := adj[a] + [b]];
      adj := adj[b := adj[b] + [a]];
      r := Ok(());
    }

    /** The neighbours of one node are reordered, never changed. */
    method SetPortOrder(node: int, neighbours: seq<int>) returns (r: Result<(), TopologyError>)
      requires View().Valid()
      modifies this
      ensures View().Valid()
      ensures r.Ok? <==> node in old(adj) && multiset(neighbours) == multiset(old(adj)[node])
      ensures r.Err? ==> View() == old(View())
      ensures r.Ok? ==> View() == old(View()).(adj := old(adj)[node := neighbours])
    {
      if node !in adj {
        return Err(UnknownNode(node));
      }
      if multiset(neighbours) != multiset(adj[node]) {
        return Err(BadPortOrder(node));
      }
      SameElements(neighbours, adj[node]);
      DistinctByMultiset(neighbours, adj[node]);
      adj := adj[node := neighbours];
      r := Ok(());
    }
  }

  lemma SameElements(s: seq<int>, t: seq<int>)
    requires multiset(s) == multiset(t)
    ensures forall x :: x in s <==> x in t
  {
    forall x ensures x in s <==> x in t {
      assert x in s <==> x in multiset(s);
      assert x in t <==> x in multiset(t);
    }
  }

  lemma DistinctIsMultiplicityOne(s: seq<int>)
    ensures Distinct(s) <==> forall x :: x in s ==> multiset(s)[x] == 1
  {
    if s != [] {
      var p, l := s[..|s| - 1], s[|s| - 1];
      assert s == p + [l];
      DistinctIsMultiplicityOne(p);
      assert multiset(s) == multiset(p) + multiset{l};
      if Distinct(s) {
        assert Distinct(p) by {
          assert forall i :: 0 <= i < |p| ==> p[i] == s[i];
        }
        assert l !in p by {
          assert forall i :: 0 <= i < |p| ==> p[i] == s[i];
        }
      } else {
        var i, j :| 0 <= i < j < |s| && s[i] == s[j];
        if j < |p| {
          assert p[i] == p[j];
          assert !Distinct(p);
          var x :| x in p && multiset(p)[x] != 1;
          assert multiset(s)[x] != 1 && x in s;
        } else {
          assert l in p;
          assert multiset(s)[l] > 1;
        }
      }
    }
  }

  lemma DistinctByMultiset(s: seq<int>, t: seq<int>)
    requires multiset(s) == multiset(t) && Distinct(t)
    ensures Distinct(s)
  {
    DistinctIsMultiplicityOne(s);
    DistinctIsMultiplicityOne(t);
    SameElements(s, t);
  }
}
