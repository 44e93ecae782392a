/** The FlooNoC v2 router (pulp/floonoc_v2/floonoc_router_v2.cpp): input FIFOs, one wormhole arbiter
    and one output FIFO per port, and links with back-pressure. */
module Router {
  import opened Wrappers
  import opened Bits
  import opened Arbiter
  import opened WormholeArbiter
  import opened XyRouting

  const OUTPUT_DEPTH := 2

  /** `packet` identifies the packet the flit belongs to; the router never reads it. */
  datatype Flit = Flit(dest: int, isLast: bool, packet: int)

  datatype Routing = Xy(at: Pos, minX: int, maxX: int) | IdTable(table: map<int, int>)

  /** What is fixed when the router is built. */
  datatype Config = Config(n: int, levels: nat, capacity: seq<int>, routing: Routing) {

    /** `get_output_port`; the router stops the simulation when there is no route. */
    function OutputPort(dest: int): Option<int> {
      match routing
      case Xy(at, minX, maxX) => if dest < -4 then None else Some(PortTo(at, NextPos(at, dest, minX, maxX)))
      case IdTable(table) => if dest in table && 0 <= table[dest] < n then Some(table[dest]) else None
    }

    predicate Valid() {
      && 0 < n <= 32 && n <= Pow2(levels) && |capacity| == n
      && (forall i :: 0 <= i < n ==> capacity[i] > 0)
      && (routing.Xy? ==> n == 5)
    }

    predicate Routed(flits: seq<Flit>) {
      forall k :: 0 <= k < |flits| ==> OutputPort(flits[k].dest).Some?
    }
  }

  datatype State = State(inputs: seq<seq<Flit>>, outputs: seq<seq<Flit>>, arbs: seq<Arb>,
                         stalled: seq<bool>, unstallCycle: seq<int>) {

    predicate Shaped(n: int) {
      |inputs| == n && |outputs| == n && |arbs| == n && |stalled| == n && |unstallCycle| == n
    }

    predicate Valid(cfg: Config) {
      && Shaped(cfg.n) && |cfg.capacity| == cfg.n
      && (forall i :: 0 <= i < cfg.n ==> |inputs[i]| <= cfg.capacity[i] && cfg.Routed(inputs[i]))
      && (forall o :: 0 <= o < cfg.n ==> |outputs[o]| <= OUTPUT_DEPTH)
      && (forall o :: 0 <= o < cfg.n ==> ArbOk(arbs[o], cfg.n))
    }
  }

  /** What a cycle finds outside: the queues whose head flit is through its delay, and the outputs
      whose next node would be full after one more flit. */
  datatype Env = Env(cycle: int, inVisible: set<int>, outVisible: set<int>, full: set<int>)

  /** Output wanted by the head flit of an input, -1 if there is none. */
  function HeadOutput(cfg: Config, s: State, env: Env, i: int): int
    requires 0 <= i < |s.inputs|
  {
    if i in env.inVisible && s.inputs[i] != [] && cfg.OutputPort(s.inputs[i][0].dest).Some?
    then cfg.OutputPort(s.inputs[i][0].dest).value else -1
  }

  /** The inputs that want output `o`. */
  function Wanting(cfg: Config, s: State, env: Env, o: int): set<int>
    requires s.Shaped(cfg.n)
  {
    set i | 0 <= i < cfg.n && HeadOutput(cfg, s, env, i) == o
  }

  function TailHeads(cfg: Config, s: State): set<int>
    requires s.Shaped(cfg.n)
  {
    set i | 0 <= i < cfg.n && s.inputs[i] != [] && s.inputs[i][0].isLast
  }

  function SeenBy(cfg: Config, s: State, env: Env, o: int): Seen
    requires s.Shaped(cfg.n) && 0 <= o < cfg.n
  {
    Seen(Wanting(cfg, s, env, o), TailHeads(cfg, s), |s.outputs[o]| < OUTPUT_DEPTH)
  }

  /** The input that output `o` takes a flit from. */
  function Source(cfg: Config, s: State, env: Env, o: int): (m: Option<int>)
    requires s.Shaped(cfg.n) && 0 <= o < cfg.n
    ensures m.Some? ==> 0 <= m.value < cfg.n && HeadOutput(cfg, s, env, m.value) == o && s.inputs[m.value] != []
  {
    Moved(s.arbs[o], SeenBy(cfg, s, env, o), cfg.levels)
  }

  /** The head flit of output `o` goes on the link. */
  predicate Sends(s: State, env: Env, o: int)
    requires 0 <= o < |s.outputs| && |s.stalled| == |s.outputs| && |s.unstallCycle| == |s.outputs|
  {
    !s.stalled[o] && o in env.outVisible && s.outputs[o] != [] && s.unstallCycle[o] != env.cycle
  }

  predicate Taken(cfg: Config, s: State, env: Env, i: int)
    requires s.Shaped(cfg.n) && 0 <= i < cfg.n
  {
    var o := HeadOutput(cfg, s, env, i);
    0 <= o < cfg.n && Source(cfg, s, env, o) == Some(i)
  }

  function InputAfter(cfg: Config, s: State, env: Env, i: int): seq<Flit>
    requires s.Shaped(cfg.n) && 0 <= i < cfg.n
  {
    if Taken(cfg, s, env, i) then s.inputs[i][1..] else s.inputs[i]
  }

  function Linked(s: State, env: Env, o: int): seq<Flit>
    requires 0 <= o < |s.outputs| && |s.stalled| == |s.outputs| && |s.unstallCycle| == |s.outputs|
  {
    if Sends(s, env, o) then s.outputs[o][1..] else s.outputs[o]
  }

  function OutputAfter(cfg: Config, s: State, env: Env, o: int): seq<Flit>
    requires s.Shaped(cfg.n) && 0 <= o < cfg.n
  {
    var m := Source(cfg, s, env, o);
    Linked(s, env, o) + if m.Some? then [s.inputs[m.value][0]] else []
  }

  function ArbAfter(cfg: Config, s: State, env: Env, o: int): Arb
    requires s.Shaped(cfg.n) && 0 <= o < cfg.n
  {
    ArbStep(s.arbs[o], SeenBy(cfg, s, env, o), cfg.n, cfg.levels)
  }

  /** One cycle of the whole router. */
  ghost predicate CycleStep(cfg: Config, s: State, env: Env, t: State)
    requires s.Shaped(cfg.n)
  {
    && t.Shaped(cfg.n) && t.unstallCycle == s.unstallCycle
    && (forall i :: 0 <= i < cfg.n ==> t.inputs[i] == InputAfter(cfg, s, env, i))
    && (forall o :: 0 <= o < cfg.n ==> t.outputs[o] == OutputAfter(cfg, s, env, o))
    && (forall o :: 0 <= o < cfg.n ==> t.arbs[o] == ArbAfter(cfg, s, env, o))
    && (forall o :: 0 <= o < cfg.n ==> t.stalled[o] == (s.stalled[o] || (Sends(s, env, o) && o in env.full)))
  }

  /** The senders told to go on: their input is one below full again. */
  function Unstalled(cfg: Config, s: State, env: Env): set<int>
    requires s.Shaped(cfg.n) && |cfg.capacity| == cfg.n
  {
    set i | 0 <= i < cfg.n && Taken(cfg, s, env, i) && |s.inputs[i]| - 1 == cfg.capacity[i] - 1
  }

  /** Something is left for the next cycle. */
  predicate Busy(s: State, n: int)
    requires s.Shaped(n)
  {
    exists i :: 0 <= i < n && BusyAt(s, n, i)
  }

  predicate BusyAt(s: State, n: int, i: int)
    requires s.Shaped(n) && 0 <= i < n
  {
    s.inputs[i] != [] || s.outputs[i] != [] || s.arbs[i].validQ != {} || s.arbs[i].lockQ || s.arbs[i].lastQ
  }

  /** The cycle when the outputs below `o` have been arbitrated. */
  ghost predicate UpTo(cfg: Config, s: State, env: Env, o: int, t: State, unstalls: set<int>)
    requires s.Shaped(cfg.n) && |cfg.capacity| == cfg.n
  {
    && t.Shaped(cfg.n) && t.unstallCycle == s.unstallCycle
    && (forall i :: 0 <= i < cfg.n ==>
          t.inputs[i] == if HeadOutput(cfg, s, env, i) < o then InputAfter(cfg, s, env, i) else s.inputs[i])
    && (forall k :: 0 <= k < cfg.n ==> t.outputs[k] == if k < o then OutputAfter(cfg, s, env, k) else Linked(s, env, k))
    && (forall k :: 0 <= k < cfg.n ==> t.arbs[k] == if k < o then ArbAfter(cfg, s, env, k) else s.arbs[k])
    && (forall k :: 0 <= k < cfg.n ==> t.stalled[k] == (s.stalled[k] || (Sends(s, env, k) && k in env.full)))
    && unstalls == set i | 0 <= i < cfg.n && HeadOutput(cfg, s, env, i) < o && i in Unstalled(cfg, s, env)
  }

  /** A head flit wants one output only, so arbitrating an output disturbs no other. */
  lemma OneOutput(cfg: Config, s: State, env: Env, o: int, t: State, unstalls: set<int>, u: State, unstalls': set<int>)
    requires s.Shaped(cfg.n) && |cfg.capacity| == cfg.n && 0 <= o < cfg.n && UpTo(cfg, s, env, o, t, unstalls)
    requires u.unstallCycle == t.unstallCycle && u.stalled == t.stalled
    requires u.arbs == t.arbs[o := ArbAfter(cfg, s, env, o)]
    requires
      var m := Source(cfg, s, env, o);
      if m.Some? then
        && u.inputs == t.inputs[m.value := s.inputs[m.value][1..]]
        && u.outputs == t.outputs[o := t.outputs[o] + [s.inputs[m.value][0]]]
        && unstalls' == unstalls + if |s.inputs[m.value]| - 1 == cfg.capacity[m.value] - 1 then {m.value} else {}
      else u.inputs == t.inputs && u.outputs == t.outputs && unstalls' == unstalls
    ensures UpTo(cfg, s, env, o + 1, u, unstalls')
  {
    forall i | 0 <= i < cfg.n
      ensures u.inputs[i] == if HeadOutput(cfg, s, env, i) < o + 1 then InputAfter(cfg, s, env, i) else s.inputs[i]
    {
    }
  }

  lemma SeenIsOk(cfg: Config, s: State, env: Env, o: int)
    requires cfg.Valid() && s.Shaped(cfg.n) && 0 <= o < cfg.n
    ensures SeenOk(SeenBy(cfg, s, env, o), cfg.n, cfg.levels)
  {
  }

  /** A cycle keeps every queue within its bound and every arbiter consistent. */
  lemma CycleKeepsValid(cfg: Config, s: State, env: Env, t: State)
    requires cfg.Valid() && s.Valid(cfg) && CycleStep(cfg, s, env, t)
    ensures t.Valid(cfg)
  {
    forall o | 0 <= o < cfg.n ensures ArbOk(t.arbs[o], cfg.n) {
      SeenIsOk(cfg, s, env, o);
      StepKeepsOk(s.arbs[o], SeenBy(cfg, s, env, o), cfg.n, cfg.levels);
    }
    forall i | 0 <= i < cfg.n ensures |t.inputs[i]| <= cfg.capacity[i] && cfg.Routed(t.inputs[i]) {
      assert cfg.Routed(s.inputs[i]);
    }
  }

  /** A router that stopped asking for cycles misses nothing: a cycle would change no state. */
  lemma QuietIsNoop(cfg: Config, s: State, env: Env, t: State)
    requires cfg.Valid() && s.Valid(cfg) && !Busy(s, cfg.n) && CycleStep(cfg, s, env, t)
    ensures t == s
  {
    forall i | 0 <= i < cfg.n
      ensures s.inputs[i] == [] && s.outputs[i] == []
      ensures s.arbs[i].validQ == {} && !s.arbs[i].lockQ && !s.arbs[i].lastQ
    {
      assert !BusyAt(s, cfg.n, i);
    }
    forall o | 0 <= o < cfg.n ensures t.arbs[o] == s.arbs[o] && t.outputs[o] == s.outputs[o] {
      assert Wanting(cfg, s, env, o) == {};
      IdleIsNoop(s.arbs[o], SeenBy(cfg, s, env, o), cfg.n, cfg.levels);
    }
    assert t.inputs == s.inputs && t.outputs == s.outputs && t.arbs == s.arbs && t.stalled == s.stalled;
  }

  /** `RouterV2` */
  class RouterV2 {
    const cfg: Config
    var inputQueues: seq<seq<Flit>>
    var outputQueues: seq<seq<Flit>>
    var arbiters: seq<Arb>
    var stalledQueues: seq<bool>
    var unstallCycle: seq<int>

    function View(): State
      reads this
    {
      State(inputQueues, outputQueues, arbiters, stalledQueues, unstallCycle)
    }

    ghost predicate Valid()
      reads this
    {
      cfg.Valid() && View().Valid(cfg)
    }

    /** `queue_size` slots per input, plus one per link stage; the levels of the arbitration trees are
        the fewest that reach every port. */
    constructor (n: int, queueSize: int, stages: seq<int>, routing: Routing)
      requires 0 < n <= 32 && |stages| == n && (routing.Xy? ==> n == 5)
      requires queueSize > 0 && forall i :: 0 <= i < n ==> stages[i] >= 0
      ensures Valid() && fresh(this)
      ensures cfg.n == n && cfg.routing == routing && (cfg.levels > 0 ==> Pow2(cfg.levels - 1) < n)
      ensures forall i :: 0 <= i < n ==> cfg.capacity[i] == queueSize + stages[i]
      ensures View() == State(seq(n, _ => []), seq(n, _ => []), seq(n, _ => RESET), seq(n, _ => false), seq(n, _ => -1))
    {
      var levels: nat := 0;
      while Pow2(levels) < n
        invariant levels > 0 ==> Pow2(levels - 1) < n
        decreases n - Pow2(levels)
      {
        levels := levels + 1;
      }
      cfg := Config(n, levels, seq(n, i requires 0 <= i < n => queueSize + stages[i]), routing);
      inputQueues := seq(n, _ => []);
      outputQueues := seq(n, _ => []);
      arbiters := seq(n, _ => RESET);
      stalledQueues := seq(n, _ => false);
      unstallCycle := seq(n, _ => -1);
    }

    /** `link_req`: queue a flit; tells the sender whether the input is now full. */
    method LinkReq(flit: Flit, i: int) returns (full: bool)
      requires Valid() && 0 <= i < cfg.n && cfg.OutputPort(flit.dest).Some?
      requires |inputQueues[i]| < cfg.capacity[i]
      modifies this`inputQueues
      ensures Valid() && inputQueues == old(inputQueues)[i := old(inputQueues)[i] + [flit]]
      ensures full <==> |inputQueues[i]| == cfg.capacity[i]
    {
      inputQueues := inputQueues[i := inputQueues[i] + [flit]];
      assert forall k :: 0 <= k < cfg.n ==> cfg.Routed(old(inputQueues)[k]);
      return |inputQueues[i]| >= cfg.capacity[i];
    }

    /** `link_unstall`: the next node accepts flits again, from the cycle after this one. */
    method LinkUnstall(o: int, cycle: int)
      requires Valid() && 0 <= o < cfg.n
      modifies this`stalledQueues, this`unstallCycle
      ensures Valid() && stalledQueues == old(stalledQueues)[o := false]
      ensures unstallCycle == old(unstallCycle)[o := cycle]
    {
      stalledQueues := stalledQueues[o := false];
      unstallCycle := unstallCycle[o := cycle];
    }

    /** First loop of the cycle: output heads go on their links. */
    method SendHeads(env: Env) returns (sent: seq<Option<Flit>>)
      requires Valid()
      modifies this`outputQueues, this`stalledQueues
      ensures |outputQueues| == cfg.n && |stalledQueues| == cfg.n && |sent| == cfg.n
      ensures forall o :: 0 <= o < cfg.n ==>
        && outputQueues[o] == Linked(old(View()), env, o)
        && stalledQueues[o] == (old(stalledQueues)[o] || (Sends(old(View()), env, o) && o in env.full))
        && sent[o] == if Sends(old(View()), env, o) then Some(old(outputQueues)[o][0]) else None
    {
      sent := [];
      for o := 0 to cfg.n
        invariant |outputQueues| == cfg.n && |stalledQueues| == cfg.n && |sent| == o
        invariant forall k :: o <= k < cfg.n ==>
          outputQueues[k] == old(outputQueues)[k] && stalledQueues[k] == old(stalledQueues)[k]
        invariant forall k :: 0 <= k < o ==>
          && outputQueues[k] == Linked(old(View()), env, k)
          && stalledQueues[k] == (old(stalledQueues)[k] || (Sends(old(View()), env, k) && k in env.full))
          && sent[k] == if Sends(old(View()), env, k) then Some(old(outputQueues)[k][0]) else None
      {
        if stalledQueues[o] || outputQueues[o] == [] || o !in env.outVisible || unstallCycle[o] == env.cycle {
          sent := sent + [None];
        } else {
          sent := sent + [Some(outputQueues[o][0])];
          outputQueues := outputQueues[o := outputQueues[o][1..]];
          if o in env.full {
            stalledQueues := stalledQueues[o := true];
          }
        }
      }
    }

    /** One output of the arbitration loop, given what its arbiter sees. */
    method Arbitrate(o: int, seen: Seen) returns (source: Option<int>)
      requires cfg.Valid() && |arbiters| == cfg.n && 0 <= o < cfg.n && ArbOk(arbiters[o], cfg.n)
      requires SeenOk(seen, cfg.n, cfg.levels)
      modifies this`arbiters
      ensures arbiters == old(arbiters)[o := ArbStep(old(arbiters)[o], seen, cfg.n, cfg.levels)]
      ensures source == Moved(old(arbiters)[o], seen, cfg.levels)
    {
      var arb := arbiters[o];
      source := None;
      if seen.valid == {} && arb.validQ == {} && !arb.lockQ && !arb.lastQ {
        IdleIsNoop(arb, seen, cfg.n, cfg.levels);
        return;
      }
      var validD := if arb.validQ == {} || arb.lastQ then seen.valid else arb.validQ;
      var reqD := if arb.lockQ then arb.reqQ else validD;
      var idx := 0;
      if reqD != {} {
        idx := ArbSelect(reqD, arb.rrQ, cfg.levels);
      }
      var sel := if seen.valid != {} then idx else 0;
      var validO := sel in seen.valid;
      var lastOut := validO && sel in seen.tails;
      if validO && seen.ready {
        source := Some(sel);
      }
      var grant := seen.ready && lastOut;
      var rr := arb.rrQ;
      if grant && reqD != {} {
        rr := ArbNext(reqD, arb.rrQ, cfg.n);
      }
      arbiters := arbiters[o := Arb(validD, lastOut && seen.ready, reqD, reqD != {} && !grant, rr)];
    }

    /** One turn of the arbitration loop: at most one head flit moves to output `o`. */
    method ServeOutput(ghost s: State, env: Env, o: int, seen: Seen, before: set<int>) returns (unstalls: set<int>)
      requires cfg.Valid() && s.Valid(cfg) && 0 <= o < cfg.n && seen == SeenBy(cfg, s, env, o)
      requires UpTo(cfg, s, env, o, View(), before)
      modifies this`inputQueues, this`outputQueues, this`arbiters
      ensures UpTo(cfg, s, env, o + 1, View(), unstalls)
    {
      unstalls := before;
      ghost var t := View();
      SeenIsOk(cfg, s, env, o);
      var source := Arbitrate(o, seen);
      if source.Some? {
        var i := source.value;
        assert inputQueues[i] == s.inputs[i];
        outputQueues := outputQueues[o := outputQueues[o] + [inputQueues[i][0]]];
        inputQueues := inputQueues[i := inputQueues[i][1..]];
        if |inputQueues[i]| == cfg.capacity[i] - 1 {
          unstalls := unstalls + {i};
        }
      }
      OneOutput(cfg, s, env, o, t, before, View(), unstalls);
    }

    /** `fsm_handler` */
    method FsmHandler(env: Env) returns (sent: seq<Option<Flit>>, unstalls: set<int>, pending: bool)
      requires Valid()
      modifies this
      ensures Valid() && CycleStep(cfg, old(View()), env, View())
      ensures |sent| == cfg.n
      ensures forall o :: 0 <= o < cfg.n ==>
        sent[o] == if Sends(old(View()), env, o) then Some(old(outputQueues)[o][0]) else None
      ensures unstalls == Unstalled(cfg, old(View()), env)
      ensures pending <==> Busy(View(), cfg.n)
    {
      ghost var s := View();
      var outputFull: seq<bool> := [];
      for o := 0 to cfg.n
        invariant |outputFull| == o && forall k :: 0 <= k < o ==> outputFull[k] == (|s.outputs[k]| >= OUTPUT_DEPTH)
      {
        outputFull := outputFull + [|outputQueues[o]| >= OUTPUT_DEPTH];
      }
      sent := SendHeads(env);
      var validIn, tails := HeadsOf(s, env);
      unstalls := {};
      for o := 0 to cfg.n
        invariant UpTo(cfg, s, env, o, View(), unstalls)
      {
        unstalls := ServeOutput(s, env, o, Seen(validIn[o], tails, !outputFull[o]), unstalls);
      }
      AllOutputs(cfg, s, env, View(), unstalls);
      pending := exists i :: 0 <= i < cfg.n && BusyAt(View(), cfg.n, i);
    }

    /** The request masks of the outputs, and the inputs with a tail flit at their head. */
    method HeadsOf(ghost s: State, env: Env) returns (validIn: seq<set<int>>, tails: set<int>)
      requires cfg.Valid() && s.Shaped(cfg.n) && inputQueues == s.inputs
      ensures |validIn| == cfg.n && forall o :: 0 <= o < cfg.n ==> validIn[o] == Wanting(cfg, s, env, o)
      ensures tails == TailHeads(cfg, s)
    {
      validIn := seq(cfg.n, _ => {});
      tails := {};
      for i := 0 to cfg.n
        invariant |validIn| == cfg.n
        invariant forall o :: 0 <= o < cfg.n ==> validIn[o] == set k | 0 <= k < i && HeadOutput(cfg, s, env, k) == o
        invariant tails == set k | 0 <= k < i && s.inputs[k] != [] && s.inputs[k][0].isLast
      {
        if inputQueues[i] != [] {
          if inputQueues[i][0].isLast {
            tails := tails + {i};
          }
          var port := cfg.OutputPort(inputQueues[i][0].dest);
          if i in env.inVisible && port.Some? {
            PortInRange(cfg, inputQueues[i][0].dest);
            validIn := validIn[port.value := validIn[port.value] + {i}];
          }
        }
      }
    }
  }

  lemma PortInRange(cfg: Config, dest: int)
    requires cfg.Valid() && cfg.OutputPort(dest).Some?
    ensures 0 <= cfg.OutputPort(dest).value < cfg.n
  {
  }

  lemma AllOutputs(cfg: Config, s: State, env: Env, t: State, unstalls: set<int>)
    requires cfg.Valid() && s.Valid(cfg) && UpTo(cfg, s, env, cfg.n, t, unstalls)
    ensures CycleStep(cfg, s, env, t) && t.Valid(cfg) && unstalls == Unstalled(cfg, s, env)
  {
    forall i | 0 <= i < cfg.n ensures HeadOutput(cfg, s, env, i) < cfg.n {
      if HeadOutput(cfg, s, env, i) >= 0 {
        PortInRange(cfg, s.inputs[i][0].dest);
      }
    }
    CycleKeepsValid(cfg, s, env, t);
  }
}
