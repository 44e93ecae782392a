/** Back-pressure over one link into a FlooNoC v2 router: a sender, which is an output of a router
    (pulp/floonoc_v2/floonoc_router_v2.cpp) or the queue of a network interface
    (pulp/floonoc_v2/floonoc_network_interface_v2.cpp), holds off exactly while the input is full, so no
    flit is ever put into a full input. */
module LinkFlow {
  import opened Router
  import NiQueue

  datatype Sender = Port(cfg: Config, s: State, o: int) | Injector(q: NiQueue.Queue)
  {
    predicate Valid() {
      match this
      case Port(cfg, s, o) => s.Shaped(cfg.n) && 0 <= o < cfg.n
      case Injector(q) => q.Valid()
    }

    predicate Stalled()
      requires Valid()
    {
      match this
      case Port(_, s, o) => s.stalled[o]
      case Injector(q) => q.stalled
    }

    /** `link_unstall` */
    function Unstall(cycle: int): Sender
      requires Valid()
    {
      match this
      case Port(cfg, s, o) =>
        Port(cfg, s.(stalled := s.stalled[o := false], unstallCycle := s.unstallCycle[o := cycle]), o)
      case Injector(q) => Injector(NiQueue.After(q, NiQueue.Event.Unstall(cycle)))
    }
  }

  /** A sender and the router it sends to. */
  datatype Link = Link(x: Sender, r: State)

  /** A turn of the sender, or something else that happens to it; a cycle of the receiver, or something
      else that happens to it. */
  datatype Event =
    | SenderCycle(env: Env)
    | Injection(cycle: int, full: bool)
    | SenderGets(k: int, flit: Flit)
    | SenderAccepts(k: int, cycle: int)
    | ReceiverCycle(env: Env)
    | ReceiverGets(k: int, flit: Flit)
    | ReceiverAccepts(k: int, cycle: int)

  function WithFlit(r: State, i: int, flit: Flit): State
    requires 0 <= i < |r.inputs|
  {
    r.(inputs := r.inputs[i := r.inputs[i] + [flit]])
  }

  /** What `link_req` answers. */
  predicate Full(c: Config, r: State, i: int)
    requires 0 <= i < |r.inputs| && 0 <= i < |c.capacity|
  {
    |r.inputs[i]| >= c.capacity[i]
  }

  ghost predicate Shaped(c: Config, i: int, l: Link) {
    c.Valid() && 0 <= i < c.n && l.x.Valid() && l.r.Shaped(c.n)
  }

  /** The sender puts a flit on the link. */
  predicate Puts(l: Link, e: Event)
    requires l.x.Valid()
  {
    match (l.x, e)
    case (Port(_, s, o), SenderCycle(env)) => Sends(s, env, o)
    case (Injector(q), Injection(cycle, full)) => NiQueue.Injects(q, NiQueue.Event.Check(cycle, full)) != -1
    case _ => false
  }

  function FlitPut(l: Link, e: Event): Flit
    requires l.x.Valid() && Puts(l, e)
  {
    match l.x
    case Port(_, s, o) => s.outputs[o][0]
    case Injector(q) => q.inputs[NiQueue.Injects(q, NiQueue.Event.Check(e.cycle, e.full))][0]
  }

  /** The receiver after the sender's turn. */
  function Received(i: int, l: Link, e: Event): State
    requires l.x.Valid() && 0 <= i < |l.r.inputs|
  {
    if Puts(l, e) then WithFlit(l.r, i, FlitPut(l, e)) else l.r
  }

  ghost predicate Step(c: Config, i: int, l: Link, e: Event, m: Link)
    requires Shaped(c, i, l)
  {
    match e
    case SenderCycle(env) =>
      && l.x.Port? && m.x.Port? && m.x.cfg == l.x.cfg && m.x.o == l.x.o && CycleStep(l.x.cfg, l.x.s, env, m.x.s)
      && m.r == Received(i, l, e) && (Puts(l, e) ==> (l.x.o in env.full <==> Full(c, m.r, i)))
    case Injection(cycle, full) =>
      && l.x.Injector? && m.x == Injector(NiQueue.After(l.x.q, NiQueue.Event.Check(cycle, full)))
      && m.r == Received(i, l, e) && (Puts(l, e) ==> (full <==> Full(c, m.r, i)))
    case SenderGets(k, flit) =>
      && m.r == l.r
      && (match l.x
          case Port(cfg, s, o) => 0 <= k < cfg.n && m.x == Port(cfg, WithFlit(s, k, flit), o)
          case Injector(q) => 0 <= k < |q.inputs| && m.x == Injector(NiQueue.After(q, NiQueue.Event.Push(k, flit))))
    case SenderAccepts(k, cycle) =>
      && m.r == l.r && l.x.Port? && 0 <= k < l.x.cfg.n && k != l.x.o
      && m.x == l.x.(s := Port(l.x.cfg, l.x.s, k).Unstall(cycle).s)
    case ReceiverCycle(env) =>
      && CycleStep(c, l.r, env, m.r)
      && m.x == if i in Unstalled(c, l.r, env) then l.x.Unstall(env.cycle) else l.x
    case ReceiverGets(k, flit) => m.x == l.x && 0 <= k < c.n && k != i && m.r == WithFlit(l.r, k, flit)
    case ReceiverAccepts(k, cycle) => m.x == l.x && 0 <= k < c.n && m.r == Port(c, l.r, k).Unstall(cycle).s
  }

  /** The sender holds off exactly while the input is full. */
  ghost predicate InStep(c: Config, i: int, l: Link) {
    && Shaped(c, i, l)
    && |l.r.inputs[i]| <= c.capacity[i]
    && (l.x.Stalled() <==> |l.r.inputs[i]| == c.capacity[i])
  }

  /** A stalled sender sends nothing. */
  lemma StalledSendsNothing(l: Link, e: Event)
    requires l.x.Valid() && l.x.Stalled()
    ensures !Puts(l, e)
  {
  }

  /** A flit put on the link finds room. */
  lemma FindsRoom(c: Config, i: int, l: Link, e: Event)
    requires InStep(c, i, l) && Puts(l, e)
    ensures |l.r.inputs[i]| < c.capacity[i]
  {
    if l.x.Stalled() {
      StalledSendsNothing(l, e);
    }
  }

  lemma StepKeeps(c: Config, i: int, l: Link, e: Event, m: Link)
    requires InStep(c, i, l) && Step(c, i, l, e, m)
    ensures InStep(c, i, m)
  {
    if Puts(l, e) {
      FindsRoom(c, i, l, e);
    }
  }

  ghost predicate IsStart(c: Config, i: int, l: Link) {
    Shaped(c, i, l) && l.r.inputs[i] == [] && !l.x.Stalled()
  }

  ghost predicate StepAt(c: Config, i: int, ls: seq<Link>, es: seq<Event>, k: int)
    requires 0 <= k < |es| && |ls| == |es| + 1
  {
    Shaped(c, i, ls[k]) && Step(c, i, ls[k], es[k], ls[k + 1])
  }

  ghost predicate IsBehaviour(c: Config, i: int, ls: seq<Link>, es: seq<Event>) {
    |ls| == |es| + 1 && IsStart(c, i, ls[0]) && forall k :: 0 <= k < |es| ==> StepAt(c, i, ls, es, k)
  }

  /** In every run the sender is stalled exactly while the input is full, and every flit it sends finds
      room there. */
  lemma {:induction false} NeverOverflows(c: Config, i: int, ls: seq<Link>, es: seq<Event>, k: nat)
    requires IsBehaviour(c, i, ls, es) && k < |ls|
    ensures InStep(c, i, ls[k])
    ensures k < |es| && Puts(ls[k], es[k]) ==> |ls[k].r.inputs[i]| < c.capacity[i]
  {
    if k > 0 {
      NeverOverflows(c, i, ls, es, k - 1);
      assert StepAt(c, i, ls, es, k - 1);
      StepKeeps(c, i, ls[k - 1], es[k - 1], ls[k]);
    }
    if k < |es| && Puts(ls[k], es[k]) {
      FindsRoom(c, i, ls[k], es[k]);
    }
  }

  /** The cycle an event happens in; pushes can come at any time. */
  predicate Timed(e: Event) {
    !e.SenderGets? && !e.ReceiverGets?
  }

  function Now(e: Event): int
    requires Timed(e)
  {
    match e
    case SenderCycle(env) => env.cycle
    case Injection(cycle, _) => cycle
    case SenderAccepts(_, cycle) => cycle
    case ReceiverCycle(env) => env.cycle
    case ReceiverAccepts(_, cycle) => cycle
  }

  ghost predicate InTime(es: seq<Event>) {
    forall j, k :: 0 <= j < k < |es| && Timed(es[j]) && Timed(es[k]) ==> Now(es[j]) <= Now(es[k])
  }

  /** The receiver tells the sender to go on. */
  predicate Releases(c: Config, i: int, l: Link, e: Event)
    requires l.r.Shaped(c.n) && |c.capacity| == c.n
  {
    e.ReceiverCycle? && i in Unstalled(c, l.r, e.env)
  }

  function ReleasedIn(x: Sender): int
    requires x.Valid()
  {
    match x
    case Port(_, s, o) => s.unstallCycle[o]
    case Injector(q) => q.unstallCycle
  }

  /** As long as cycle `now` lasts, a sender released in it stays so marked, and an injector that has
      sent its flit. */
  lemma {:induction false} MarksStay(c: Config, i: int, ls: seq<Link>, es: seq<Event>, j: nat, k: nat, now: int)
    requires IsBehaviour(c, i, ls, es) && j <= k < |ls|
    requires forall m :: j <= m < k && Timed(es[m]) ==> Now(es[m]) == now
    ensures Shaped(c, i, ls[j]) && Shaped(c, i, ls[k]) && ls[k].x.Injector? == ls[j].x.Injector?
    ensures ReleasedIn(ls[j].x) == now ==> ReleasedIn(ls[k].x) == now
    ensures ls[j].x.Injector? && ls[j].x.q.lastInject == now ==> ls[k].x.q.lastInject == now
  {
    NeverOverflows(c, i, ls, es, k);
    if k > j {
      MarksStay(c, i, ls, es, j, k - 1, now);
      NeverOverflows(c, i, ls, es, k - 1);
      assert StepAt(c, i, ls, es, k - 1);
      MarkStays(c, i, ls[k - 1], es[k - 1], ls[k], now);
    }
  }

  lemma MarkStays(c: Config, i: int, l: Link, e: Event, m: Link, now: int)
    requires InStep(c, i, l) && Step(c, i, l, e, m) && (Timed(e) ==> Now(e) == now)
    ensures m.x.Valid() && m.x.Injector? == l.x.Injector?
    ensures ReleasedIn(l.x) == now ==> ReleasedIn(m.x) == now
    ensures l.x.Injector? && l.x.q.lastInject == now ==> m.x.q.lastInject == now
    ensures Releases(c, i, l, e) ==> ReleasedIn(m.x) == now
    ensures l.x.Injector? && Puts(l, e) ==> m.x.q.lastInject == now
  {
    StepKeeps(c, i, l, e, m);
  }

  lemma SameCycle(es: seq<Event>, j: nat, k: nat)
    requires InTime(es) && j < k < |es| && Timed(es[j]) && Timed(es[k]) && Now(es[k]) <= Now(es[j])
    ensures forall m :: j <= m <= k && Timed(es[m]) ==> Now(es[m]) == Now(es[j])
  {
    forall m | j <= m <= k && Timed(es[m]) ensures Now(es[m]) == Now(es[j]) {
      assert m == j || Now(es[j]) <= Now(es[m]);
      assert m == k || Now(es[m]) <= Now(es[k]);
    }
  }

  /** A sender that is released sends again in a later cycle only. */
  lemma SendsAfterRelease(c: Config, i: int, ls: seq<Link>, es: seq<Event>, j: nat, k: nat)
    requires IsBehaviour(c, i, ls, es) && InTime(es) && j < k < |es|
    requires Shaped(c, i, ls[j]) && Releases(c, i, ls[j], es[j]) && Shaped(c, i, ls[k]) && Puts(ls[k], es[k])
    ensures Now(es[j]) < Now(es[k])
  {
    if Now(es[k]) <= Now(es[j]) {
      SameCycle(es, j, k);
      NeverOverflows(c, i, ls, es, j);
      assert StepAt(c, i, ls, es, j);
      MarkStays(c, i, ls[j], es[j], ls[j + 1], Now(es[j]));
      MarksStay(c, i, ls, es, j + 1, k, Now(es[j]));
    }
  }

  /** A network interface puts at most one flit per cycle on the link, however often it tries. */
  lemma OneFlitPerCycle(c: Config, i: int, ls: seq<Link>, es: seq<Event>, j: nat, k: nat)
    requires IsBehaviour(c, i, ls, es) && InTime(es) && j < k < |es|
    requires Shaped(c, i, ls[j]) && Puts(ls[j], es[j]) && Shaped(c, i, ls[k]) && Puts(ls[k], es[k]) && ls[j].x.Injector?
    ensures Now(es[j]) < Now(es[k])
  {
    if Now(es[k]) <= Now(es[j]) {
      SameCycle(es, j, k);
      NeverOverflows(c, i, ls, es, j);
      assert StepAt(c, i, ls, es, j);
      MarkStays(c, i, ls[j], es[j], ls[j + 1], Now(es[j]));
      MarksStay(c, i, ls, es, j + 1, k, Now(es[j]));
    }
  }
}
