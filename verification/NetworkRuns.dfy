/** Whole networks of table-routed routers (pulp/floonoc_v2/floonoc_v2.py): the next-hop tables turned into
    port tables, and the runs of all routers together. */
module NetworkRuns {
  import opened Wrappers
  import opened Digraph
  import opened Topology
  import opened Walks
  import opened CheckRoutes
  import opened Router
  import opened RouterRuns
  import opened RouterPorts

  /** The port of node `u` that faces neighbour `v`. */
  function PortOf(net: Network, u: int, v: int): (r: nat)
    requires u in net.adj && v in net.adj[u]
    ensures r < |net.adj[u]| && net.adj[u][r] == v
  {
    IndexOf(net.adj[u], v)
  }

  /** Entry `d` of the port table of router `u` faces the next hop. */
  predicate FacesHop(net: Network, tables: Tables, u: int, ports: map<int, int>, d: int)
    requires u in net.adj && d in ports
  {
    HasHop(tables, u, d) && 0 <= ports[d] < |net.adj[u]| && net.adj[u][ports[d]] == tables[u][d]
  }

  ghost predicate IsPortTable(net: Network, tables: Tables, u: int, ports: map<int, int>) {
    && u in tables && u in net.adj && ports.Keys == tables[u].Keys
    && forall d :: d in ports ==> FacesHop(net, tables, u, ports, d)
  }

  /** The loop of `finalize` over the table of one router; an entry that is no neighbour ends it. */
  method PortTable(net: Network, tables: Tables, u: int) returns (r: Option<map<int, int>>)
    requires net.Valid() && net.IsRouter(u) && u in tables
    ensures r.Some? <==> forall d :: d in tables[u] ==> tables[u][d] in net.adj[u]
    ensures r.Some? ==> IsPortTable(net, tables, u, r.value)
  {
    var ports: map<int, int> := map[];
    var left := tables[u].Keys;
    while exists d :: d in left
      invariant left <= tables[u].Keys && ports.Keys == tables[u].Keys - left
      invariant forall d :: d in ports ==> FacesHop(net, tables, u, ports, d)
      decreases left
    {
      var d :| d in left;
      if tables[u][d] !in net.adj[u] {
        return None;
      }
      ports := ports[d := PortOf(net, u, tables[u][d])];
      left := left - {d};
    }
    assert forall d :: d in tables[u] ==> d in ports;
    r := Some(ports);
  }

  /** Every router has one port per link, and the port table of its next hops. */
  ghost predicate IsFabric(net: Network, tables: Tables, cfgs: map<int, Config>)
    requires net.Valid()
  {
    forall u :: net.IsRouter(u) ==>
      && u in cfgs && cfgs[u].Valid() && cfgs[u].n == |net.adj[u]|
      && cfgs[u].routing.IdTable? && IsPortTable(net, tables, u, cfgs[u].routing.table)
  }

  /** Each packet between two NIs, by its number, with the walk the tables give it. */
  type Packets = map<int, Route>

  ghost predicate IsPacket(net: Network, tables: Tables, p: Route)
    requires net.Valid()
  {
    |p| >= 2 && net.IsNi(p[|p| - 1]) && Delivered(net, tables, p[0], p[|p| - 1], p)
  }

  ghost predicate PacketsOk(net: Network, tables: Tables, packets: Packets)
    requires net.Valid()
  {
    forall k :: k in packets ==> IsPacket(net, tables, packets[k])
  }

  /** The flit's packet goes from `a` to `b`. */
  ghost predicate GoesOver(packets: Packets, f: Flit, a: int, b: int) {
    && f.packet in packets && packets[f.packet] != []
    && f.dest == packets[f.packet][|packets[f.packet]| - 1]
    && exists i :: 0 <= i < |packets[f.packet]| - 1 && HopAt(packets[f.packet], i, a, b)
  }

  predicate HopAt(p: Route, i: int, a: int, b: int)
    requires 0 <= i < |p| - 1
  {
    p[i] == a && p[i + 1] == b
  }

  type State = map<int, Run>

  /** Every flit at router `u` is on the walk of its packet. */
  ghost predicate OnWalks(net: Network, cfg: Config, packets: Packets, u: int, r: Run)
    requires net.Valid() && net.IsRouter(u)
  {
    && r.Shaped(cfg.n) && cfg.n == |net.adj[u]|
    && (forall i, k :: 0 <= i < cfg.n && 0 <= k < |r.arrived[i]| ==> GoesOver(packets, r.arrived[i][k], net.adj[u][i], u))
    && (forall o, k :: 0 <= o < cfg.n && 0 <= k < |r.granted[o]| ==>
          GoesOver(packets, r.granted[o][k].1, u, net.adj[u][o]))
  }

  /** What has arrived at `v` from `u` is what `u` sent first. */
  ghost predicate LinkOk(net: Network, cfgs: map<int, Config>, rs: State, u: int, v: int)
    requires net.Valid() && net.IsRouter(u) && net.IsRouter(v) && v in net.adj[u] && u in net.adj[v]
    requires u in rs && v in rs && rs[u].Shaped(|net.adj[u]|) && rs[v].Shaped(|net.adj[v]|)
  {
    rs[v].arrived[PortOf(net, v, u)] <= rs[u].sent[PortOf(net, u, v)]
  }

  ghost predicate RouterOk(net: Network, cfgs: map<int, Config>, packets: Packets, rs: State, u: int)
    requires net.Valid() && net.IsRouter(u)
  {
    && u in cfgs && u in rs && cfgs[u].Valid()
    && RouterRuns.Inv(cfgs[u], rs[u]) && PortsRight(cfgs[u], rs[u]) && OnWalks(net, cfgs[u], packets, u, rs[u])
  }

  ghost predicate NetInv(net: Network, cfgs: map<int, Config>, packets: Packets, rs: State)
    requires net.Valid()
  {
    && (forall u :: net.IsRouter(u) ==> RouterOk(net, cfgs, packets, rs, u))
    && forall u, v :: net.IsRouter(u) && net.IsRouter(v) && v in net.adj[u] ==> LinkOk(net, cfgs, rs, u, v)
  }

  /** A router has a cycle, or an output told to go on; a flit crosses a link; an NI puts a flit in. */
  datatype NetEvent = Local(u: int, e: RouterRuns.Event) | Cross(u: int, v: int) | Enters(ni: int, f: Flit)

  /** Router `v` with one more flit on input `i`. */
  function WithFlit(cfg: Config, r: Run, i: int, f: Flit): Run
    requires r.Shaped(cfg.n) && |cfg.capacity| == cfg.n && 0 <= i < cfg.n
  {
    r.(s := r.s.(inputs := r.s.inputs[i := r.s.inputs[i] + [f]]), arrived := r.arrived[i := r.arrived[i] + [f]],
       held := r.held[i := |r.s.inputs[i]| + 1 >= cfg.capacity[i]])
  }

  ghost predicate NetShaped(net: Network, cfgs: map<int, Config>, rs: State)
    requires net.Valid()
  {
    forall u :: net.IsRouter(u) ==>
      u in rs && u in cfgs && cfgs[u].Valid() && cfgs[u].n == |net.adj[u]| && rs[u].Shaped(cfgs[u].n)
  }

  ghost predicate NetStep(net: Network, cfgs: map<int, Config>, packets: Packets, rs: State, e: NetEvent, ts: State)
    requires net.Valid() && NetShaped(net, cfgs, rs)
  {
    match e
    case Local(u, ev) =>
      && net.IsRouter(u) && !ev.Arrive? && u in ts && RouterRuns.Step(cfgs[u], rs[u], ev, ts[u]) && ts == rs[u := ts[u]]
    case Cross(u, v) =>
      && net.IsRouter(u) && net.IsRouter(v) && v in net.adj[u]
      && var o, i := PortOf(net, u, v), PortOf(net, v, u);
         var n := |rs[v].arrived[i]|;
         n < |rs[u].sent[o]| && !rs[v].held[i] && ts == rs[v := WithFlit(cfgs[v], rs[v], i, rs[u].sent[o][n])]
    case Enters(ni, f) =>
      && net.IsNi(ni) && |net.adj[ni]| == 1
      && var v := net.adj[ni][0];
         && net.IsRouter(v) && ni in net.adj[v]
         && var i := PortOf(net, v, ni);
            && GoesOver(packets, f, ni, v) && !rs[v].held[i] && Follows(rs[v].arrived[i], f)
            && ts == rs[v := WithFlit(cfgs[v], rs[v], i, f)]
  }

  lemma InvIsShaped(net: Network, cfgs: map<int, Config>, packets: Packets, rs: State)
    requires net.Valid() && NetInv(net, cfgs, packets, rs)
    ensures NetShaped(net, cfgs, rs)
  {
    forall u | net.IsRouter(u)
      ensures u in rs && u in cfgs && cfgs[u].Valid() && cfgs[u].n == |net.adj[u]| && rs[u].Shaped(cfgs[u].n)
    {
      assert RouterOk(net, cfgs, packets, rs, u);
    }
  }

  /** A packet that goes on to a router has an entry there, and goes on to the router's next hop. */
  lemma GoesOn(net: Network, tables: Tables, packets: Packets, f: Flit, a: int, u: int)
    requires net.Valid() && PacketsOk(net, tables, packets) && GoesOver(packets, f, a, u) && net.IsRouter(u)
    ensures HasHop(tables, u, f.dest) && tables[u][f.dest] in net.adj[u] && GoesOver(packets, f, u, tables[u][f.dest])
  {
    var p := packets[f.packet];
    var i :| 0 <= i < |p| - 1 && HopAt(p, i, a, u);
    assert IsPacket(net, tables, p);
    assert i + 1 < |p| - 1;
    assert Hop(net, tables, f.dest, p[i + 1], p[i + 2]);
    assert HopAt(p, i + 1, u, tables[u][f.dest]);
  }

  /** Flits of one packet have one destination. */
  lemma SamePacket(packets: Packets, f: Flit, h: Flit, a: int, b: int, c: int, d: int)
    requires GoesOver(packets, f, a, b) && GoesOver(packets, h, c, d) && f.packet == h.packet
    ensures f.dest == h.dest
  {
  }

  /** A flit on the walk of its packet can be put into the next router. */
  lemma CanArrive(net: Network, tables: Tables, cfgs: map<int, Config>, packets: Packets, rs: State, v: int, i: int, f: Flit)
    requires net.Valid() && PacketsOk(net, tables, packets) && IsFabric(net, tables, cfgs) && net.IsRouter(v)
    requires RouterOk(net, cfgs, packets, rs, v) && 0 <= i < cfgs[v].n
    requires GoesOver(packets, f, net.adj[v][i], v) && !rs[v].held[i] && Follows(rs[v].arrived[i], f)
    ensures Arrives(cfgs[v], rs[v], i, f, WithFlit(cfgs[v], rs[v], i, f))
  {
    GoesOn(net, tables, packets, f, net.adj[v][i], v);
    assert FacesHop(net, tables, v, cfgs[v].routing.table, f.dest);
  }

  lemma ArrivalKeeps(net: Network, tables: Tables, cfgs: map<int, Config>, packets: Packets, rs: State, v: int, i: int, f: Flit)
    requires net.Valid() && PacketsOk(net, tables, packets) && IsFabric(net, tables, cfgs) && net.IsRouter(v)
    requires RouterOk(net, cfgs, packets, rs, v) && 0 <= i < cfgs[v].n
    requires GoesOver(packets, f, net.adj[v][i], v) && !rs[v].held[i] && Follows(rs[v].arrived[i], f)
    ensures RouterOk(net, cfgs, packets, rs[v := WithFlit(cfgs[v], rs[v], i, f)], v)
  {
    var t := WithFlit(cfgs[v], rs[v], i, f);
    CanArrive(net, tables, cfgs, packets, rs, v, i, f);
    ArriveKeeps(cfgs[v], rs[v], i, f, t);
    StepPortsRight(cfgs[v], rs[v], Arrive(i, f), t);
    forall j, k | 0 <= j < cfgs[v].n && 0 <= k < |t.arrived[j]|
      ensures GoesOver(packets, t.arrived[j][k], net.adj[v][j], v)
    {
      assert t.arrived[j][k] == if j == i && k == |rs[v].arrived[i]| then f else rs[v].arrived[j][k];
    }
  }

  /** The next flit on a link continues the packet before it. */
  lemma LinkFollows(net: Network, cfgs: map<int, Config>, packets: Packets, rs: State, u: int, o: int, n: int)
    requires net.Valid() && net.IsRouter(u) && RouterOk(net, cfgs, packets, rs, u)
    requires 0 <= o < cfgs[u].n && 0 <= n < |rs[u].sent[o]|
    ensures GoesOver(packets, rs[u].sent[o][n], u, net.adj[u][o]) && Follows(rs[u].sent[o][..n], rs[u].sent[o][n])
  {
    var g := rs[u].granted[o];
    assert OutputInv(cfgs[u], rs[u], o);
    assert rs[u].sent[o][n] == Flits(g)[n];
    if n > 0 {
      assert rs[u].sent[o][n - 1] == Flits(g)[n - 1];
      assert JoinedAt(g, n);
      if !g[n - 1].1.isLast {
        SamePacket(packets, g[n - 1].1, g[n].1, u, net.adj[u][o], u, net.adj[u][o]);
      }
    }
  }

  /** A cycle sends each flit on along the walk of its packet. */
  lemma CycleKeepsWalks(net: Network, tables: Tables, cfgs: map<int, Config>, packets: Packets, rs: State, u: int,
                        env: Env, t: Run)
    requires net.Valid() && PacketsOk(net, tables, packets) && IsFabric(net, tables, cfgs) && net.IsRouter(u)
    requires RouterOk(net, cfgs, packets, rs, u) && Ticks(cfgs[u], rs[u], env, t) && PortsRight(cfgs[u], t)
    ensures OnWalks(net, cfgs[u], packets, u, t)
  {
    var cfg, r := cfgs[u], rs[u];
    forall o, k | 0 <= o < cfg.n && 0 <= k < |t.granted[o]|
      ensures GoesOver(packets, t.granted[o][k].1, u, net.adj[u][o])
    {
      var m := Source(cfg, r.s, env, o);
      if k < |r.granted[o]| {
        assert t.granted[o][k] == r.granted[o][k];
      } else {
        var f := r.s.inputs[m.value][0];
        assert t.granted[o][k] == (m.value, f);
        assert InputInv(cfg, r, m.value);
        assert r.arrived[m.value][|r.taken[m.value]|] == f;
        GoesOn(net, tables, packets, f, net.adj[u][m.value], u);
        assert LeavesBy(cfg.routing, t.granted[o][k].1.dest, o);
        assert FacesHop(net, tables, u, cfg.routing.table, f.dest);
      }
    }
  }

  lemma LocalKeepsRouter(net: Network, tables: Tables, cfgs: map<int, Config>, packets: Packets, rs: State, u: int,
                         e: RouterRuns.Event, t: Run)
    requires net.Valid() && PacketsOk(net, tables, packets) && IsFabric(net, tables, cfgs) && net.IsRouter(u)
    requires RouterOk(net, cfgs, packets, rs, u) && !e.Arrive? && RouterRuns.Step(cfgs[u], rs[u], e, t)
    ensures RouterOk(net, cfgs, packets, rs[u := t], u)
    ensures t.arrived == rs[u].arrived && forall o :: 0 <= o < cfgs[u].n ==> rs[u].sent[o] <= t.sent[o]
  {
    StepPortsRight(cfgs[u], rs[u], e, t);
    match e
    case Accepts(o, cycle) => AcceptsKeeps(cfgs[u], rs[u], o, cycle, t);
    case Cycle(env) =>
      TickKeeps(cfgs[u], rs[u], env, t);
      CycleKeepsWalks(net, tables, cfgs, packets, rs, u, env, t);
  }

  /** The links into router `x` still carry what was sent. */
  ghost predicate LinksInto(net: Network, rs: State, x: int, t: Run)
    requires net.Valid() && net.IsRouter(x) && t.Shaped(|net.adj[x]|)
  {
    forall u :: net.IsRouter(u) && x in net.adj[u] && u in net.adj[x] && u in rs && rs[u].Shaped(|net.adj[u]|) ==>
      t.arrived[PortOf(net, x, u)] <= rs[u].sent[PortOf(net, u, x)]
  }

  /** Changing one router, whose outputs only sent more, keeps the network consistent. */
  lemma RouterChanges(net: Network, cfgs: map<int, Config>, packets: Packets, rs: State, x: int, t: Run)
    requires net.Valid() && NetInv(net, cfgs, packets, rs) && net.IsRouter(x) && RouterOk(net, cfgs, packets, rs, x)
    requires RouterOk(net, cfgs, packets, rs[x := t], x) && LinksInto(net, rs, x, t)
    requires forall o :: 0 <= o < cfgs[x].n ==> rs[x].sent[o] <= t.sent[o]
    ensures NetInv(net, cfgs, packets, rs[x := t])
  {
    var ts := rs[x := t];
    forall u | net.IsRouter(u) ensures RouterOk(net, cfgs, packets, ts, u) {
      assert RouterOk(net, cfgs, packets, rs, u);
    }
    forall u, v | net.IsRouter(u) && net.IsRouter(v) && v in net.adj[u] ensures LinkOk(net, cfgs, ts, u, v) {
      assert RouterOk(net, cfgs, packets, rs, u) && RouterOk(net, cfgs, packets, rs, v);
      assert LinkOk(net, cfgs, rs, u, v);
    }
  }

  lemma LocalKeeps(net: Network, tables: Tables, cfgs: map<int, Config>, packets: Packets, rs: State, x: int,
                   e: RouterRuns.Event, ts: State)
    requires net.Valid() && PacketsOk(net, tables, packets) && IsFabric(net, tables, cfgs)
    requires NetInv(net, cfgs, packets, rs) && NetShaped(net, cfgs, rs)
    requires NetStep(net, cfgs, packets, rs, Local(x, e), ts)
    ensures NetInv(net, cfgs, packets, ts)
  {
    var t := ts[x];
    assert RouterOk(net, cfgs, packets, rs, x);
    LocalKeepsRouter(net, tables, cfgs, packets, rs, x, e, t);
    forall u | net.IsRouter(u) && x in net.adj[u] && u in net.adj[x] && u in rs && rs[u].Shaped(|net.adj[u]|)
      ensures t.arrived[PortOf(net, x, u)] <= rs[u].sent[PortOf(net, u, x)]
    {
      assert LinkOk(net, cfgs, rs, u, x);
    }
    RouterChanges(net, cfgs, packets, rs, x, t);
  }

  /** A flit put into router `v` on the link from `a`. */
  lemma FlitKeeps(net: Network, tables: Tables, cfgs: map<int, Config>, packets: Packets, rs: State, a: int, v: int, f: Flit)
    requires net.Valid() && PacketsOk(net, tables, packets) && IsFabric(net, tables, cfgs)
    requires NetInv(net, cfgs, packets, rs) && net.IsRouter(v) && RouterOk(net, cfgs, packets, rs, v)
    requires a in net.adj[v] && a in net.adj && v in net.adj[a] && GoesOver(packets, f, a, v)
    requires
      var i := PortOf(net, v, a);
      !rs[v].held[i] && Follows(rs[v].arrived[i], f)
    requires net.IsRouter(a) ==>
      && RouterOk(net, cfgs, packets, rs, a)
      && rs[v].arrived[PortOf(net, v, a)] + [f] <= rs[a].sent[PortOf(net, a, v)]
    ensures NetInv(net, cfgs, packets, rs[v := WithFlit(cfgs[v], rs[v], PortOf(net, v, a), f)])
  {
    var i := PortOf(net, v, a);
    var t := WithFlit(cfgs[v], rs[v], i, f);
    ArrivalKeeps(net, tables, cfgs, packets, rs, v, i, f);
    forall u | net.IsRouter(u) && v in net.adj[u] && u in net.adj[v] && u in rs && rs[u].Shaped(|net.adj[u]|)
      ensures t.arrived[PortOf(net, v, u)] <= rs[u].sent[PortOf(net, u, v)]
    {
      assert LinkOk(net, cfgs, rs, u, v);
    }
    RouterChanges(net, cfgs, packets, rs, v, t);
  }

  /** The flit that crosses next. */
  lemma NextOnLink(net: Network, cfgs: map<int, Config>, packets: Packets, rs: State, u: int, v: int, n: int)
    requires net.Valid() && NetInv(net, cfgs, packets, rs) && net.IsRouter(u) && net.IsRouter(v) && v in net.adj[u]
    requires RouterOk(net, cfgs, packets, rs, u) && RouterOk(net, cfgs, packets, rs, v)
    requires n == |rs[v].arrived[PortOf(net, v, u)]| < |rs[u].sent[PortOf(net, u, v)]|
    ensures
      var o, i := PortOf(net, u, v), PortOf(net, v, u);
      var f := rs[u].sent[o][n];
      GoesOver(packets, f, u, v) && Follows(rs[v].arrived[i], f) && rs[v].arrived[i] + [f] <= rs[u].sent[o]
  {
    assert LinkOk(net, cfgs, rs, u, v);
    LinkFollows(net, cfgs, packets, rs, u, PortOf(net, u, v), n);
    assert rs[v].arrived[PortOf(net, v, u)] == rs[u].sent[PortOf(net, u, v)][..n];
  }

  lemma CrossKeeps(net: Network, tables: Tables, cfgs: map<int, Config>, packets: Packets, rs: State, u: int, v: int, ts: State)
    requires net.Valid() && PacketsOk(net, tables, packets) && IsFabric(net, tables, cfgs)
    requires NetInv(net, cfgs, packets, rs) && NetShaped(net, cfgs, rs)
    requires NetStep(net, cfgs, packets, rs, Cross(u, v), ts)
    ensures NetInv(net, cfgs, packets, ts)
  {
    var o, i := PortOf(net, u, v), PortOf(net, v, u);
    var n := |rs[v].arrived[i]|;
    assert RouterOk(net, cfgs, packets, rs, u) && RouterOk(net, cfgs, packets, rs, v);
    NextOnLink(net, cfgs, packets, rs, u, v, n);
    FlitKeeps(net, tables, cfgs, packets, rs, u, v, rs[u].sent[o][n]);
  }

  lemma EntersKeeps(net: Network, tables: Tables, cfgs: map<int, Config>, packets: Packets, rs: State, ni: int, f: Flit, ts: State)
    requires net.Valid() && PacketsOk(net, tables, packets) && IsFabric(net, tables, cfgs)
    requires NetInv(net, cfgs, packets, rs) && NetShaped(net, cfgs, rs)
    requires NetStep(net, cfgs, packets, rs, Enters(ni, f), ts)
    ensures NetInv(net, cfgs, packets, ts)
  {
    assert RouterOk(net, cfgs, packets, rs, net.adj[ni][0]);
    FlitKeeps(net, tables, cfgs, packets, rs, ni, net.adj[ni][0], f);
  }

  lemma NetStepKeeps(net: Network, tables: Tables, cfgs: map<int, Config>, packets: Packets, rs: State, e: NetEvent, ts: State)
    requires net.Valid() && PacketsOk(net, tables, packets) && IsFabric(net, tables, cfgs)
    requires NetInv(net, cfgs, packets, rs) && NetShaped(net, cfgs, rs) && NetStep(net, cfgs, packets, rs, e, ts)
    ensures NetInv(net, cfgs, packets, ts)
  {
    if e.Local? {
      LocalKeeps(net, tables, cfgs, packets, rs, e.u, e.e, ts);
    } else if e.Cross? {
      CrossKeeps(net, tables, cfgs, packets, rs, e.u, e.v, ts);
    } else {
      EntersKeeps(net, tables, cfgs, packets, rs, e.ni, e.f, ts);
    }
  }

  ghost predicate NetStart(net: Network, cfgs: map<int, Config>, rs: State)
    requires net.Valid()
  {
    forall u :: net.IsRouter(u) ==>
      u in rs && u in cfgs && cfgs[u].Valid() && cfgs[u].n == |net.adj[u]| && IsStart(cfgs[u], rs[u])
  }

  lemma StartKeeps(net: Network, cfgs: map<int, Config>, packets: Packets, rs: State)
    requires net.Valid() && NetStart(net, cfgs, rs)
    ensures NetInv(net, cfgs, packets, rs)
  {
    forall u | net.IsRouter(u) ensures RouterOk(net, cfgs, packets, rs, u) {
      StartIsOk(cfgs[u], rs[u]);
    }
  }

  ghost predicate NetStepAt(net: Network, cfgs: map<int, Config>, packets: Packets, states: seq<State>, events: seq<NetEvent>,
                            k: int)
    requires net.Valid() && |states| == |events| + 1 && 0 <= k < |events|
  {
    NetShaped(net, cfgs, states[k]) && NetStep(net, cfgs, packets, states[k], events[k], states[k + 1])
  }

  ghost predicate IsNetRun(net: Network, cfgs: map<int, Config>, packets: Packets, states: seq<State>, events: seq<NetEvent>)
    requires net.Valid()
  {
    && |states| == |events| + 1 && NetStart(net, cfgs, states[0])
    && forall k :: 0 <= k < |events| ==> NetStepAt(net, cfgs, packets, states, events, k)
  }

  lemma IsStep(net: Network, cfgs: map<int, Config>, packets: Packets, states: seq<State>, events: seq<NetEvent>, k: int)
    requires net.Valid() && IsNetRun(net, cfgs, packets, states, events) && 0 <= k < |events|
    ensures NetShaped(net, cfgs, states[k]) && NetStep(net, cfgs, packets, states[k], events[k], states[k + 1])
  {
    assert NetStepAt(net, cfgs, packets, states, events, k);
  }

  /** In every run of the network, each router keeps its invariant with what its neighbours really send,
      and every flit is on the walk that the tables give its packet. */
  lemma NetworkKeepsInv(net: Network, tables: Tables, cfgs: map<int, Config>, packets: Packets, states: seq<State>,
                        events: seq<NetEvent>, k: nat)
    requires net.Valid() && PacketsOk(net, tables, packets) && IsFabric(net, tables, cfgs)
    requires IsNetRun(net, cfgs, packets, states, events) && k < |states|
    ensures NetInv(net, cfgs, packets, states[k])
  {
    StartKeeps(net, cfgs, packets, states[0]);
    for j := 0 to k
      invariant NetInv(net, cfgs, packets, states[j])
    {
      IsStep(net, cfgs, packets, states, events, j);
      NetStepKeeps(net, tables, cfgs, packets, states[j], events[j], states[j + 1]);
    }
  }

  /** An NI only gets flits addressed to it. */
  lemma OnlyOwnFlits(net: Network, tables: Tables, cfgs: map<int, Config>, packets: Packets, states: seq<State>,
                     events: seq<NetEvent>, k: nat, u: int, ni: int)
    requires net.Valid() && PacketsOk(net, tables, packets) && IsFabric(net, tables, cfgs)
    requires IsNetRun(net, cfgs, packets, states, events) && k < |states|
    requires net.IsRouter(u) && net.IsNi(ni) && ni in net.adj[u]
    ensures NetShaped(net, cfgs, states[k])
    ensures forall f :: f in states[k][u].sent[PortOf(net, u, ni)] ==> f.dest == ni
  {
    NetworkKeepsInv(net, tables, cfgs, packets, states, events, k);
    InvIsShaped(net, cfgs, packets, states[k]);
    var o := PortOf(net, u, ni);
    forall f | f in states[k][u].sent[o] ensures f.dest == ni {
      var j :| 0 <= j < |states[k][u].sent[o]| && states[k][u].sent[o][j] == f;
      assert RouterOk(net, cfgs, packets, states[k], u);
      LinkFollows(net, cfgs, packets, states[k], u, o, j);
      EndsAtNi(net, tables, packets, f, u, ni);
    }
  }

  lemma EndsAtNi(net: Network, tables: Tables, packets: Packets, f: Flit, u: int, ni: int)
    requires net.Valid() && PacketsOk(net, tables, packets) && GoesOver(packets, f, u, ni) && net.IsNi(ni)
    ensures f.dest == ni
  {
    var p := packets[f.packet];
    var i :| 0 <= i < |p| - 1 && HopAt(p, i, u, ni);
    assert IsPacket(net, tables, p);
    DeliveredEnds(net, tables, p[0], f.dest, p);
    assert !net.IsRouter(p[i + 1]);
  }
}
