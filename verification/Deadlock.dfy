/** What the acyclic channel dependency graph of `check_routes` is for: wormhole packets on the
    returned routes never wait for each other in a circle. */
module Deadlock {
  import opened Digraph
  import opened FindCycle
  import opened CheckRoutes

  /** A packet in flight holds the channels `lo..hi` of its route; its head waits for channel
      `hi`, or is being ejected when `hi` is past the last one. */
  datatype Packet = Packet(route: Route, lo: nat, hi: nat) {
    predicate Ok() { lo < hi <= |route| - 1 }

    function Channel(i: nat): Channel
      requires i < |route| - 1
    {
      (route[i], route[i + 1])
    }

    predicate Arriving() { hi == |route| - 1 }

    ghost predicate Holds(c: Channel)
      requires Ok()
    {
      exists i :: lo <= i < hi && Channel(i) == c
    }

    /** Channel acquisitions and releases still to come. */
    function Work(): nat
      requires Ok()
    {
      2 * (|route| - 1) - hi - lo
    }
  }

  type State = seq<Packet>

  ghost predicate AllOk(s: State) {
    forall k {:trigger s[k]} :: 0 <= k < |s| ==> s[k].Ok()
  }

  /** Every packet follows a returned route; a channel belongs to one packet at a time. */
  ghost predicate StateOk(routes: seq<Route>, s: State) {
    && AllOk(s)
    && (forall k :: 0 <= k < |s| ==> s[k].route in routes)
    && (forall j, k, c :: 0 <= j < k < |s| && s[j].Holds(c) ==> !s[k].Holds(c))
  }

  ghost predicate Taken(s: State, c: Channel)
    requires AllOk(s)
  {
    exists k :: 0 <= k < |s| && s[k].Holds(c)
  }

  /** The head of packet `k` can move: it is being ejected, or its next channel is free. */
  ghost predicate CanAdvance(s: State, k: nat)
    requires k < |s| && AllOk(s)
  {
    s[k].Arriving() || !Taken(s, s[k].Channel(s[k].hi))
  }

  ghost predicate Stuck(routes: seq<Route>, s: State)
  {
    s != [] && StateOk(routes, s) && forall k :: 0 <= k < |s| ==> !CanAdvance(s, k)
  }

  /** Along its own route, a packet's later channels depend on its earlier ones. */
  lemma {:induction false} RouteLeads(routes: seq<Route>, p: Packet, i: nat, j: nat)
    requires p.route in routes && i < j < |p.route| - 1
    ensures LeadsTo(DepsOf(routes), p.Channel(i), p.Channel(j))
  {
    var k :| 0 <= k < |routes| && routes[k] == p.route;
    var a, b := p.Channel(j - 1), p.Channel(j);
    assert DepAt(routes[k], j - 1, a, b);
    DepsExact(routes, a, b);
    assert IsPath(DepsOf(routes), [a, b], a, b);
    if i < j - 1 {
      RouteLeads(routes, p, i, j - 1);
      LeadsToTransitive(DepsOf(routes), p.Channel(i), a, b);
    }
  }

  function HeadChannel(p: Packet): Channel
    requires p.Ok()
  {
    p.Channel(p.hi - 1)
  }

  /** A blocked packet's head channel leads to the head channel of the packet in its way. */
  lemma BlockedLeads(routes: seq<Route>, s: State, k: nat) returns (f: nat)
    requires StateOk(routes, s) && k < |s| && !CanAdvance(s, k)
    ensures f < |s| && LeadsTo(DepsOf(routes), HeadChannel(s[k]), HeadChannel(s[f]))
  {
    var want := s[k].Channel(s[k].hi);
    f :| 0 <= f < |s| && s[f].Holds(want);
    var i :| s[f].lo <= i < s[f].hi && s[f].Channel(i) == want;
    RouteLeads(routes, s[k], s[k].hi - 1, s[k].hi);
    if i < s[f].hi - 1 {
      RouteLeads(routes, s[f], i, s[f].hi - 1);
      LeadsToTransitive(DepsOf(routes), HeadChannel(s[k]), want, HeadChannel(s[f]));
    }
  }

  /** When nobody can advance, everybody waits for somebody. */
  lemma {:induction false} WaitsFor(routes: seq<Route>, s: State, heads: seq<Channel>, n: nat) returns (next: seq<int>)
    requires Stuck(routes, s) && n <= |s|
    requires |heads| == |s| && forall k :: 0 <= k < |s| ==> heads[k] == HeadChannel(s[k])
    ensures |next| == n && forall k :: 0 <= k < n ==> LeadsInto(DepsOf(routes), heads, k, next[k])
  {
    if n == 0 {
      next := [];
    } else {
      next := WaitsFor(routes, s, heads, n - 1);
      var f := BlockedLeads(routes, s, n - 1);
      next := next + [f];
    }
  }

  /** Safety: with an acyclic dependency graph some packet can always advance. */
  lemma NoDeadlock(routes: seq<Route>, s: State)
    requires Acyclic(DepsOf(routes)) && StateOk(routes, s) && s != []
    ensures exists k :: 0 <= k < |s| && CanAdvance(s, k)
  {
    if Stuck(routes, s) {
      var heads := seq(|s|, k requires 0 <= k < |s| => HeadChannel(s[k]));
      var next := WaitsFor(routes, s, heads, |s|);
      LeadsOnHasCycle(DepsOf(routes), heads, next);
    }
  }

  /** The packet that realises one edge of a dependency cycle: it holds `a` and waits for `b`. */
  lemma EdgePacket(routes: seq<Route>, a: Channel, b: Channel) returns (p: Packet)
    requires Edge(DepsOf(routes), a, b)
    ensures p.Ok() && p.route in routes && !p.Arriving()
    ensures p.lo == p.hi - 1 && p.Channel(p.lo) == a && p.Channel(p.hi) == b
  {
    DepsExact(routes, a, b);
    var k, i :| 0 <= k < |routes| && DepAt(routes[k], i, a, b);
    p := Packet(routes[k], i, i + 1);
  }

  /** `p` holds exactly channel number `k` of the cycle and waits for the one after it. */
  ghost predicate IsCyclePacket(routes: seq<Route>, c: seq<Channel>, k: nat, p: Packet)
    requires k < |c|
  {
    && p.Ok() && p.route in routes && !p.Arriving() && p.lo == p.hi - 1
    && p.Channel(p.lo) == c[k] && p.Channel(p.hi) == if k == |c| - 1 then c[0] else c[k + 1]
  }

  lemma {:induction false} CyclePackets(routes: seq<Route>, c: seq<Channel>, n: nat) returns (s: State)
    requires IsCycle(DepsOf(routes), c) && n <= |c|
    ensures |s| == n
    ensures forall k :: 0 <= k < n ==> IsCyclePacket(routes, c, k, s[k])
  {
    if n == 0 {
      s := [];
    } else {
      s := CyclePackets(routes, c, n - 1);
      var p := EdgePacket(routes, c[n - 1], if n == |c| then c[0] else c[n]);
      s := s + [p];
    }
  }

  /** Completeness: around a dependency cycle packets can wait for each other, one per channel. */
  lemma CycleDeadlocks(routes: seq<Route>) returns (s: State)
    requires !Acyclic(DepsOf(routes))
    ensures Stuck(routes, s)
  {
    var c0 :| IsCycle(DepsOf(routes), c0);
    var c := SimpleCycle(DepsOf(routes), c0);
    s := CyclePackets(routes, c, |c|);
    forall k, x | 0 <= k < |s| ensures s[k].Holds(x) <==> x == c[k] {
      assert IsCyclePacket(routes, c, k, s[k]);
    }
    forall k | 0 <= k < |s| ensures !CanAdvance(s, k) {
      var next := if k == |c| - 1 then 0 else k + 1;
      assert IsCyclePacket(routes, c, k, s[k]);
      assert s[next].Holds(c[next]);
    }
  }

  /** `check_routes` decides deadlock freedom exactly. */
  lemma DeadlockFreeExactly(routes: seq<Route>)
    ensures Acyclic(DepsOf(routes)) <==> forall s :: !Stuck(routes, s)
  {
    if Acyclic(DepsOf(routes)) {
      forall s | Stuck(routes, s) ensures false {
        NoDeadlock(routes, s);
      }
    } else {
      var s := CycleDeadlocks(routes);
    }
  }

  /** One movement: a head takes a free channel, or a tail frees one (the last one by leaving). */
  ghost predicate Step(s: State, t: State)
    requires AllOk(s)
  {
    exists k :: 0 <= k < |s| && (HeadStep(s, t, k) || TailStep(s, t, k))
  }

  ghost predicate HeadStep(s: State, t: State, k: nat)
    requires k < |s| && AllOk(s)
  {
    !s[k].Arriving() && CanAdvance(s, k) && t == s[k := s[k].(hi := s[k].hi + 1)]
  }

  ghost predicate TailStep(s: State, t: State, k: nat)
    requires k < |s|
  {
    if s[k].lo + 1 < s[k].hi then t == s[k := s[k].(lo := s[k].lo + 1)]
    else s[k].Arriving() && t == s[..k] + s[k + 1..]
  }

  ghost function TotalWork(s: State): nat
    requires AllOk(s)
  {
    if s == [] then 0 else TotalWork(s[..|s| - 1]) + s[|s| - 1].Work()
  }

  lemma {:induction false} WorkReplace(s: State, k: nat, p: Packet)
    requires k < |s| && p.Ok() && AllOk(s)
    ensures TotalWork(s[k := p]) == TotalWork(s) - s[k].Work() + p.Work()
  {
    var n := |s| - 1;
    if k < n {
      assert s[k := p][..n] == s[..n][k := p];
      WorkReplace(s[..n], k, p);
    } else {
      assert s[k := p][..n] == s[..n];
    }
  }

  lemma {:induction false} WorkRemove(s: State, k: nat)
    requires k < |s| && AllOk(s)
    ensures TotalWork(s[..k] + s[k + 1..]) == TotalWork(s) - s[k].Work()
  {
    var n := |s| - 1;
    var t := s[..k] + s[k + 1..];
    if k < n {
      assert t[..n - 1] == s[..n][..k] + s[..n][k + 1..];
      WorkRemove(s[..n], k);
    } else {
      assert t == s[..n];
    }
  }

  /** The channels a packet holds after its head has moved are its own or were free. */
  lemma HeadTakesFree(s: State, t: State, k: nat)
    requires AllOk(s) && k < |s| && HeadStep(s, t, k)
    ensures |t| == |s| && t[k].Ok() && forall c :: t[k].Holds(c) ==> s[k].Holds(c) || !Taken(s, c)
  {
    forall c | t[k].Holds(c) ensures s[k].Holds(c) || !Taken(s, c) {
      var i :| t[k].lo <= i < t[k].hi && t[k].Channel(i) == c;
      assert s[k].Channel(i) == c;
    }
  }

  lemma HeadStepKeeps(routes: seq<Route>, s: State, t: State, k: nat)
    requires StateOk(routes, s) && k < |s| && HeadStep(s, t, k)
    ensures StateOk(routes, t) && TotalWork(t) < TotalWork(s)
  {
    WorkReplace(s, k, t[k]);
    HeadTakesFree(s, t, k);
    forall i, j, c | 0 <= i < j < |t| && t[i].Holds(c) ensures !t[j].Holds(c) {
      assert i != k ==> t[i] == s[i];
      assert j != k ==> t[j] == s[j];
    }
  }

  lemma TailStepKeeps(routes: seq<Route>, s: State, t: State, k: nat)
    requires StateOk(routes, s) && k < |s| && TailStep(s, t, k)
    ensures StateOk(routes, t) && TotalWork(t) < TotalWork(s)
  {
    if |t| == |s| {
      WorkReplace(s, k, t[k]);
      forall c | t[k].Holds(c) ensures s[k].Holds(c) {
        var i :| t[k].lo <= i < t[k].hi && t[k].Channel(i) == c;
        assert s[k].Channel(i) == c;
      }
      forall i, j, c | 0 <= i < j < |t| && t[i].Holds(c) ensures !t[j].Holds(c) {
        assert i != k ==> t[i] == s[i];
        assert j != k ==> t[j] == s[j];
      }
    } else {
      WorkRemove(s, k);
      RemovalKeeps(routes, s, k);
    }
  }

  lemma RemovalKeeps(routes: seq<Route>, s: State, k: nat)
    requires StateOk(routes, s) && k < |s|
    ensures StateOk(routes, s[..k] + s[k + 1..])
  {
    var t := s[..k] + s[k + 1..];
    forall j | 0 <= j < |t| ensures t[j] == s[if j < k then j else j + 1] {
    }
    forall i, j, c | 0 <= i < j < |t| && t[i].Holds(c) ensures !t[j].Holds(c) {
      var x, y := if i < k then i else i + 1, if j < k then j else j + 1;
      assert s[x].Holds(c) ==> !s[y].Holds(c);
    }
  }

  /** A step keeps channels exclusive and uses up work. */
  lemma StepKeeps(routes: seq<Route>, s: State, t: State)
    requires StateOk(routes, s) && Step(s, t)
    ensures StateOk(routes, t) && TotalWork(t) < TotalWork(s)
  {
    var k :| 0 <= k < |s| && (HeadStep(s, t, k) || TailStep(s, t, k));
    if HeadStep(s, t, k) {
      HeadStepKeeps(routes, s, t, k);
    } else {
      TailStepKeeps(routes, s, t, k);
    }
  }

  ghost predicate IsRun(routes: seq<Route>, run: seq<State>)
  {
    && run != [] && StateOk(routes, run[0])
    && forall i :: 0 <= i < |run| - 1 ==> AllOk(run[i]) && Step(run[i], run[i + 1])
  }

  /** Liveness: without new injections every run is short, ... */
  lemma {:induction false} RunsAreBounded(routes: seq<Route>, run: seq<State>, i: nat)
    requires IsRun(routes, run) && i < |run|
    ensures StateOk(routes, run[i]) && TotalWork(run[i]) + i <= TotalWork(run[0])
  {
    if i > 0 {
      RunsAreBounded(routes, run, i - 1);
      StepKeeps(routes, run[i - 1], run[i]);
    }
  }

  /** ... and a run can stop only when every packet has left. */
  lemma OnlyEmptyIsFinal(routes: seq<Route>, s: State)
    requires Acyclic(DepsOf(routes)) && StateOk(routes, s)
    ensures s == [] <==> forall t :: !Step(s, t)
  {
    if s != [] {
      NoDeadlock(routes, s);
      var k :| 0 <= k < |s| && CanAdvance(s, k);
      var t :=
        if !s[k].Arriving() then s[k := s[k].(hi := s[k].hi + 1)]
        else if s[k].lo + 1 < s[k].hi then s[k := s[k].(lo := s[k].lo + 1)]
        else s[..k] + s[k + 1..];
      assert HeadStep(s, t, k) || TailStep(s, t, k);
      assert Step(s, t);
    }
  }

  /** A new packet takes the free first channel of its route. */
  ghost predicate Injects(routes: seq<Route>, s: State, t: State)
    requires AllOk(s)
  {
    exists r :: r in routes && |r| >= 2 && !Taken(s, (r[0], r[1])) && t == s + [Packet(r, 0, 1)]
  }

  ghost predicate Leads(routes: seq<Route>, s: State, t: State) {
    AllOk(s) && (Injects(routes, s, t) || Step(s, t))
  }

  /** The empty network comes to `s` in `n` injections and movements. */
  ghost predicate Arises(routes: seq<Route>, s: State, n: nat)
    decreases n
  {
    if n == 0 then s == [] else exists u :: Arises(routes, u, n - 1) && Leads(routes, u, s)
  }

  ghost predicate CanArise(routes: seq<Route>, s: State) {
    exists n: nat :: Arises(routes, s, n)
  }

  lemma InjectionKeeps(routes: seq<Route>, s: State, r: Route)
    requires StateOk(routes, s) && r in routes && |r| >= 2 && !Taken(s, (r[0], r[1]))
    ensures StateOk(routes, s + [Packet(r, 0, 1)])
  {
    var p := Packet(r, 0, 1);
    forall c | p.Holds(c) ensures !Taken(s, c) {
      assert c == p.Channel(0);
    }
    var t := s + [p];
    forall i, j, c | 0 <= i < j < |t| && t[i].Holds(c) ensures !t[j].Holds(c) {
      assert t[i] == s[i] && (if j < |s| then t[j] == s[j] else t[j] == p);
    }
  }

  lemma {:induction false} ArisesOk(routes: seq<Route>, s: State, n: nat)
    requires Arises(routes, s, n)
    ensures StateOk(routes, s)
    decreases n
  {
    if n > 0 {
      var u :| Arises(routes, u, n - 1) && Leads(routes, u, s);
      ArisesOk(routes, u, n - 1);
      if Step(u, s) {
        StepKeeps(routes, u, s);
      } else {
        var r :| r in routes && |r| >= 2 && !Taken(u, (r[0], r[1])) && s == u + [Packet(r, 0, 1)];
        InjectionKeeps(routes, u, r);
      }
    }
  }

  /** Every state that arises from the empty network is well formed, so on acyclic routes none is stuck. */
  lemma NoneArisesStuck(routes: seq<Route>, s: State)
    requires CanArise(routes, s)
    ensures StateOk(routes, s) && (Acyclic(DepsOf(routes)) ==> !Stuck(routes, s))
  {
    var n: nat :| Arises(routes, s, n);
    ArisesOk(routes, s, n);
    if Acyclic(DepsOf(routes)) && s != [] {
      NoDeadlock(routes, s);
    }
  }

  lemma OneMore(routes: seq<Route>, s: State, t: State)
    requires CanArise(routes, s) && Leads(routes, s, t)
    ensures CanArise(routes, t)
  {
    var n: nat :| Arises(routes, s, n);
    assert Arises(routes, t, n + 1);
  }

  /** The first `h` channels of a route are free. */
  ghost predicate WayFree(s: State, r: Route, h: nat)
    requires AllOk(s) && h <= |r| - 1
  {
    forall i :: 0 <= i < h ==> !Taken(s, (r[i], r[i + 1]))
  }

  lemma LastAdvances(s: State, p: Packet)
    requires AllOk(s) && p.Ok() && Distinct(p.route) && !p.Arriving() && !Taken(s, p.Channel(p.hi))
    ensures AllOk(s + [p]) && HeadStep(s + [p], s + [p.(hi := p.hi + 1)], |s|)
  {
    var t, c := s + [p], p.Channel(p.hi);
    forall k | 0 <= k < |t| ensures t[k].Ok() && !t[k].Holds(c) {
      assert t[k] == if k < |s| then s[k] else p;
    }
    assert t[|s| := p.(hi := p.hi + 1)] == s + [p.(hi := p.hi + 1)];
  }

  /** A packet comes as far as its way is free, ... */
  lemma {:induction false} HeadComes(routes: seq<Route>, s: State, r: Route, h: nat)
    requires CanArise(routes, s) && AllOk(s) && r in routes && Distinct(r) && 1 <= h <= |r| - 1 && WayFree(s, r, h)
    ensures CanArise(routes, s + [Packet(r, 0, h)])
    decreases h
  {
    var t := s + [Packet(r, 0, h)];
    if h == 1 {
      assert Injects(routes, s, t);
      OneMore(routes, s, t);
    } else {
      HeadComes(routes, s, r, h - 1);
      LastAdvances(s, Packet(r, 0, h - 1));
      OneMore(routes, s + [Packet(r, 0, h - 1)], t);
    }
  }

  /** ... and its tail follows. */
  lemma {:induction false} TailComes(routes: seq<Route>, s: State, p: Packet)
    requires AllOk(s) && p.Ok() && CanArise(routes, s + [p.(lo := 0)])
    ensures CanArise(routes, s + [p])
    decreases p.lo
  {
    if p.lo > 0 {
      var before := s + [p.(lo := p.lo - 1)];
      TailComes(routes, s, p.(lo := p.lo - 1));
      assert TailStep(before, s + [p], |s|);
      OneMore(routes, before, s + [p]);
    }
  }

  /** Packet after packet, each finds its way to its place free. */
  ghost predicate Placeable(routes: seq<Route>, s: State) {
    && AllOk(s)
    && forall k :: 0 <= k < |s| ==>
         s[k].route in routes && Distinct(s[k].route) && AllOk(s[..k]) && WayFree(s[..k], s[k].route, s[k].hi)
  }

  /** Such a state can arise: it is enough for a deadlock that happens from the empty network on. */
  lemma {:induction false} PlaceableArises(routes: seq<Route>, s: State)
    requires Placeable(routes, s)
    ensures CanArise(routes, s)
    decreases |s|
  {
    if s == [] {
      assert Arises(routes, s, 0);
    } else {
      var n := |s| - 1;
      var u, p := s[..n], s[n];
      forall k | 0 <= k < n ensures u[k] == s[k] && u[..k] == s[..k] {
      }
      PlaceableArises(routes, u);
      HeadComes(routes, u, p.route, p.hi);
      assert p.(lo := 0) == Packet(p.route, 0, p.hi);
      TailComes(routes, u, p);
      assert s == u + [p];
    }
  }

  /** The packet reaches back to its source. */
  predicate FromSource(p: Packet) { p.Ok() && p.lo == 0 }

  ghost predicate Apart(p: Packet, q: Packet)
    requires p.Ok() && q.Ok()
  {
    forall c :: p.Holds(c) ==> !q.Holds(c)
  }

  ghost predicate WaitsForPacket(p: Packet, q: Packet)
    requires p.Ok() && q.Ok()
  {
    !p.Arriving() && q.Holds(p.Channel(p.hi))
  }

  ghost predicate InCircle(s: State, k: int)
    requires 0 <= k < |s|
  {
    var q := s[if k == |s| - 1 then 0 else k + 1];
    FromSource(s[k]) && Distinct(s[k].route) && q.Ok() && WaitsForPacket(s[k], q)
  }

  /** Packets in a circle, each waiting for the next one. */
  ghost predicate Circular(s: State) {
    && s != [] && (forall k :: 0 <= k < |s| ==> InCircle(s, k))
    && forall j, k :: 0 <= j < k < |s| ==> s[j].Ok() && s[k].Ok() && Apart(s[j], s[k])
  }

  /** Packets that wait in a circle, with their ways from the sources apart, are a deadlock that can
      arise from the empty network. */
  lemma CircleArises(routes: seq<Route>, s: State)
    requires Circular(s) && forall k :: 0 <= k < |s| ==> s[k].route in routes
    ensures Stuck(routes, s) && CanArise(routes, s)
  {
    forall k | 0 <= k < |s| ensures s[k].Ok() {
      assert InCircle(s, k);
    }
    forall k | 0 <= k < |s|
      ensures AllOk(s[..k]) && WayFree(s[..k], s[k].route, s[k].hi) && Distinct(s[k].route) && !CanAdvance(s, k)
    {
      assert AllOk(s[..k]) && InCircle(s, k);
      forall i | 0 <= i < s[k].hi ensures !Taken(s[..k], (s[k].route[i], s[k].route[i + 1])) {
        assert s[k].Holds(s[k].Channel(i));
      }
    }
    PlaceableArises(routes, s);
  }
}
