/** `_tables_from_first_hops` (pulp/floonoc_v2/floonoc_v2_routing.py): next-hop tables from
    router-to-router first hops, and why good first hops deliver every packet. */
module RoutingTables {
  import opened Wrappers
  import opened Digraph
  import opened Topology
  import opened Walks
  import opened CheckRoutes

  datatype GenError =
    | NiNotLinkedOnce(ni: int)
    | CannotReach(src: int, ni: int)
    | NotConnected
    | NoCoordinates(router: int)
    | BadAxis(src: int, target: int)
    | NoNextRouter(src: int, target: int)

  /** Router-to-router first hops: `hops[src][target]`. */
  type FirstHops = map<int, map<int, int>>

  ghost predicate NisLinkedOnce(net: Network)
    requires net.Valid()
  {
    forall ni :: net.IsNi(ni) ==> net.NiRouter(ni).Ok?
  }

  function Target(net: Network, ni: int): int
    requires net.Valid() && net.IsNi(ni) && net.NiRouter(ni).Ok?
  {
    net.NiRouter(ni).value
  }

  /** The entry for `ni` in the table of router `src`. */
  ghost predicate Entry(net: Network, first: FirstHops, table: map<int, int>, src: int, ni: int)
    requires net.Valid() && net.IsNi(ni) && net.NiRouter(ni).Ok? && src in first
  {
    && ni in table
    && if Target(net, ni) == src then table[ni] == ni
       else Target(net, ni) in first[src] && table[ni] == first[src][Target(net, ni)]
  }

  ghost predicate TablesOf(net: Network, first: FirstHops, tables: Tables)
    requires net.Valid()
  {
    && NisLinkedOnce(net)
    && forall src, ni :: net.IsRouter(src) && net.IsNi(ni) ==>
         src in tables && src in first && Entry(net, first, tables[src], src, ni)
  }

  /** Every router has a first hop towards every other router an NI hangs off. */
  ghost predicate AllReached(net: Network, first: FirstHops)
    requires net.Valid()
  {
    forall src, ni :: net.IsRouter(src) && net.IsNi(ni) && net.NiRouter(ni).Ok? ==>
      src in first && (Target(net, ni) == src || Target(net, ni) in first[src])
  }

  /** NI `ni` has no single router, or `src` has no first hop towards it. */
  ghost predicate Unroutable(net: Network, first: FirstHops, src: int, ni: int)
    requires net.Valid() && src in first
  {
    net.IsNi(ni) && (net.NiRouter(ni).Err? || (Target(net, ni) != src && Target(net, ni) !in first[src]))
  }

  /** One router's table. */
  method TableOf(net: Network, first: FirstHops, src: int) returns (r: Result<map<int, int>, GenError>)
    requires net.Valid() && net.IsRouter(src) && src in first
    ensures r.Ok? ==> forall ni :: net.IsNi(ni) ==> net.NiRouter(ni).Ok? && Entry(net, first, r.value, src, ni)
    ensures r.Err? ==> exists ni :: Unroutable(net, first, src, ni)
  {
    var table := map[];
    for i := 0 to |net.nis|
      invariant forall k :: 0 <= k < i ==> net.NiRouter(net.nis[k]).Ok? && Entry(net, first, table, src, net.nis[k])
    {
      var ni := net.nis[i];
      var target := net.NiRouter(ni);
      if target.Err? {
        assert Unroutable(net, first, src, ni);
        return Err(NiNotLinkedOnce(ni));
      }
      if target.value == src {
        table := table[ni := ni];
      } else if target.value in first[src] {
        table := table[ni := first[src][target.value]];
      } else {
        assert Unroutable(net, first, src, ni);
        return Err(CannotReach(src, ni));
      }
    }
    r := Ok(table);
  }

  /** Succeeds exactly when every NI has one router and every router reaches all of those. */
  method TablesFromFirstHops(net: Network, first: FirstHops) returns (r: Result<Tables, GenError>)
    requires net.Valid() && forall src :: net.IsRouter(src) ==> src in first
    ensures r.Ok? && net.routers != [] ==> TablesOf(net, first, r.value)
    ensures r.Ok? <==> net.routers == [] || (NisLinkedOnce(net) && AllReached(net, first))
  {
    var tables: Tables := map[];
    for i := 0 to |net.routers|
      invariant forall k :: 0 <= k < i ==> net.routers[k] in tables
      invariant forall k, ni :: 0 <= k < i && net.IsNi(ni) ==>
        net.NiRouter(ni).Ok? && Entry(net, first, tables[net.routers[k]], net.routers[k], ni)
    {
      var src := net.routers[i];
      var table := TableOf(net, first, src);
      if table.Err? {
        return Err(table.error);
      }
      tables := tables[src := table.value];
    }
    if net.routers != [] {
      forall ni | net.IsNi(ni) ensures net.NiRouter(ni).Ok? {
        assert Entry(net, first, tables[net.routers[0]], net.routers[0], ni);
      }
      forall src, ni | net.IsRouter(src) && net.IsNi(ni) ensures Entry(net, first, tables[src], src, ni) {
      }
    }
    r := Ok(tables);
  }

  /** First hops that follow links and bring `measure` towards the target down by one (or more)
      make the tables deliver. */
  ghost predicate FirstHopsDescend(net: Network, first: FirstHops, target: int, measure: int -> nat)
    requires net.Valid()
  {
    forall u :: net.IsRouter(u) && u != target ==>
      && u in first && target in first[u] && first[u][target] in net.RouterAdj(u)
      && measure(first[u][target]) < measure(u)
  }

  lemma TablesDescend(net: Network, first: FirstHops, tables: Tables, ni: int, measure: int -> nat)
    requires net.Valid() && TablesOf(net, first, tables) && net.IsNi(ni)
    requires FirstHopsDescend(net, first, Target(net, ni), measure)
    ensures Descends(net, tables, ni, measure)
  {
    NiRouterIsRouter(net, ni);
    forall u | net.IsRouter(u)
      ensures
        && HasHop(tables, u, ni) && Hop(net, tables, ni, u, tables[u][ni])
        && (tables[u][ni] == ni || (net.IsRouter(tables[u][ni]) && measure(tables[u][ni]) < measure(u)))
    {
      assert Entry(net, first, tables[u], u, ni);
    }
  }

  /** The walk of a packet under descending tables. */
  lemma DeliverOne(net: Network, tables: Tables, src: int, dst: int, measure: int -> nat) returns (p: seq<int>)
    requires net.Valid() && net.IsNi(src) && net.IsNi(dst) && src != dst && net.NiRouter(src).Ok?
    requires Descends(net, tables, dst, measure)
    ensures Delivered(net, tables, src, dst, p)
  {
    NiRouterIsRouter(net, src);
    p := DescendFrom(net, tables, src, dst, measure, [src, Target(net, src)]);
  }
}
