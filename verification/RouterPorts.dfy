/** Which port a flit leaves a FlooNoC v2 router through (pulp/floonoc_v2/floonoc_router_v2.cpp), in every
    run: the one of the table, or the one a hop closer, columns first. */
module RouterPorts {
  import opened Wrappers
  import opened WormholeArbiter
  import opened XyRouting
  import opened Router
  import opened RouterRuns

  function Gap(a: int, b: int): nat {
    if a < b then b - a else a - b
  }

  function Far(a: Pos, b: Pos): nat {
    Gap(a.0, b.0) + Gap(a.1, b.1)
  }

  /** The column of routers, of those between `minX` and `maxX`, that is nearest to `x`. */
  predicate IsNearestColumn(c: int, x: int, minX: int, maxX: int) {
    minX <= c <= maxX && forall k :: minX <= k <= maxX ==> Gap(c, x) <= Gap(k, x)
  }

  /** Port `o` of the router at `at` leads to the NI at `ni`: the local port exactly at the NI's own
      position, and otherwise one hop closer, first along the row to the nearest column of routers, then
      along the column, and out of the columns last. */
  predicate Towards(at: Pos, minX: int, maxX: int, ni: Pos, o: int) {
    if at == ni then o == DIR_LOCAL
    else
      var next := Leave(at, o);
      && 0 <= o < DIR_LOCAL && Far(next, ni) == Far(at, ni) - 1
      && (next.1 != at.1 ==> IsNearestColumn(at.0, ni.0, minX, maxX))
      && (next.1 == at.1 && at.1 != ni.1 ==> minX <= next.0 <= maxX)
  }

  /** A router of this kind sends flits for `dest` out of port `o`. */
  predicate LeavesBy(routing: Routing, dest: int, o: int) {
    match routing
    case IdTable(table) => dest in table && table[dest] == o
    case Xy(at, minX, maxX) =>
      if dest < 0 then o == dest + 4
      else minX <= at.0 <= maxX ==> Towards(at, minX, maxX, (NodeX(dest), NodeY(dest)), o)
  }

  lemma PortIsRight(cfg: Config, dest: int, o: int)
    requires cfg.OutputPort(dest) == Some(o)
    ensures LeavesBy(cfg.routing, dest, o)
  {
  }

  /** Every flit granted to an output has left through the right port. */
  ghost predicate PortsRight(cfg: Config, r: Run) {
    && r.Shaped(cfg.n)
    && forall o, k :: 0 <= o < cfg.n && 0 <= k < |r.granted[o]| ==> LeavesBy(cfg.routing, r.granted[o][k].1.dest, o)
  }

  lemma StepPortsRight(cfg: Config, r: Run, e: Event, t: Run)
    requires cfg.Valid() && PortsRight(cfg, r) && Step(cfg, r, e, t)
    ensures PortsRight(cfg, t)
  {
    if e.Cycle? {
      forall o, k | 0 <= o < cfg.n && 0 <= k < |t.granted[o]|
        ensures LeavesBy(cfg.routing, t.granted[o][k].1.dest, o)
      {
        var m := Source(cfg, r.s, e.env, o);
        if k < |r.granted[o]| {
          assert t.granted[o][k] == r.granted[o][k];
        } else {
          PortIsRight(cfg, r.s.inputs[m.value][0].dest, o);
        }
      }
    }
  }

  lemma {:induction false} AllRunsPortsRight(cfg: Config, runs: seq<Run>, events: seq<Event>, k: nat)
    requires cfg.Valid() && IsBehaviour(cfg, runs, events) && k < |runs|
    ensures PortsRight(cfg, runs[k])
  {
    if k > 0 {
      AllRunsPortsRight(cfg, runs, events, k - 1);
      assert RouterRuns.StepAt(cfg, runs, events, k - 1);
      StepPortsRight(cfg, runs[k - 1], events[k - 1], runs[k]);
    }
  }

  /** In every run, each flit put on a link has the destination this link leads to. */
  lemma LinksAreRight(cfg: Config, runs: seq<Run>, events: seq<Event>, k: nat, o: int, j: int)
    requires cfg.Valid() && IsBehaviour(cfg, runs, events) && k < |runs| && 0 <= o < cfg.n
    requires runs[k].Shaped(cfg.n) && 0 <= j < |runs[k].sent[o]|
    ensures LeavesBy(cfg.routing, runs[k].sent[o][j].dest, o)
  {
    AllRunsKeepInv(cfg, runs, events, k);
    AllRunsPortsRight(cfg, runs, events, k);
    assert OutputInv(cfg, runs[k], o);
    assert runs[k].sent[o][j] == Flits(runs[k].granted[o])[j];
  }

  /** In a grid, the ports chosen follow the XY route. */
  lemma PortFollowsXyRoute(g: Grid, cfg: Config, ni: Pos, p: seq<Pos>, i: int, o: int)
    requires g.HasNi(ni) && IsXyRoute(g, ni, p) && 0 <= i < |p| && g.HasRouter(p[i])
    requires cfg.routing == Xy(p[i], g.minX, g.maxX) && LeavesBy(cfg.routing, NodeId(ni.0, ni.1), o)
    ensures if p[i] == ni then o == DIR_LOCAL && i == |p| - 1
            else i < |p| - 1 ==> 0 <= o < DIR_LOCAL && p[i + 1] == Leave(p[i], o)
  {
    NodeIdRoundTrip(ni.0, ni.1);
    HopIsCloser(g, p[i], ni);
    if p[i] != ni {
      OnlyPort(p[i], g.minX, g.maxX, ni, o, PortTo(p[i], NextPos(p[i], NodeId(ni.0, ni.1), g.minX, g.maxX)));
    }
  }

  /** No two ports lead to the same NI. */
  lemma OnlyPort(at: Pos, minX: int, maxX: int, ni: Pos, a: int, b: int)
    requires minX <= at.0 <= maxX && Towards(at, minX, maxX, ni, a) && Towards(at, minX, maxX, ni, b)
    ensures a == b
  {
  }
}
