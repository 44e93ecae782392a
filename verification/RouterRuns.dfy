/** Whole runs of a FlooNoC v2 router, with the history of every queue: wormhole integrity,
    conservation of flits, and link flow control. */
module RouterRuns {
  import opened Wrappers
  import opened Arbiter
  import opened WormholeArbiter
  import opened Router

  /** A sender delivers a flit, a next node accepts flits again, or the clock ticks. */
  datatype Event = Arrive(i: int, flit: Flit) | Accepts(o: int, cycle: int) | Cycle(env: Env)

  /** A router state with, per input, whether its sender holds off, the flits that arrived and those
      taken; and, per output, the flits granted (with their input) and those put on the link. */
  datatype Run = Run(s: State, held: seq<bool>, arrived: seq<seq<Flit>>, taken: seq<seq<Flit>>,
                     granted: seq<seq<(int, Flit)>>, sent: seq<seq<Flit>>)
  {
    predicate Shaped(n: int) {
      && s.Shaped(n)
      && |held| == n && |arrived| == n && |taken| == n && |granted| == n && |sent| == n
    }
  }

  ghost predicate IsStart(cfg: Config, r: Run) {
    && r.Shaped(cfg.n)
    && (forall i :: 0 <= i < cfg.n ==> r.s.inputs[i] == [] && r.arrived[i] == [] && r.taken[i] == [] && !r.held[i])
    && (forall o :: 0 <= o < cfg.n ==> r.s.outputs[o] == [] && r.granted[o] == [] && r.sent[o] == [])
    && (forall o :: 0 <= o < cfg.n ==> r.s.arbs[o] == RESET)
  }

  /** Senders deliver whole packets, each to one destination. */
  predicate Follows(stream: seq<Flit>, f: Flit) {
    stream == [] || stream[|stream| - 1].isLast
    || (stream[|stream| - 1].packet == f.packet && stream[|stream| - 1].dest == f.dest)
  }

  ghost predicate Arrives(cfg: Config, r: Run, i: int, flit: Flit, t: Run)
    requires cfg.Valid() && r.Shaped(cfg.n)
  {
    && 0 <= i < cfg.n && !r.held[i] && cfg.OutputPort(flit.dest).Some? && Follows(r.arrived[i], flit)
    && t == r.(s := r.s.(inputs := r.s.inputs[i := r.s.inputs[i] + [flit]]),
               arrived := r.arrived[i := r.arrived[i] + [flit]],
               held := r.held[i := |r.s.inputs[i]| + 1 >= cfg.capacity[i]])
  }

  ghost predicate Ticks(cfg: Config, r: Run, env: Env, t: Run)
    requires cfg.Valid() && r.Shaped(cfg.n)
  {
    && t.Shaped(cfg.n) && CycleStep(cfg, r.s, env, t.s) && t.arrived == r.arrived
    && (forall i :: 0 <= i < cfg.n ==>
          && t.held[i] == (r.held[i] && i !in Unstalled(cfg, r.s, env))
          && t.taken[i] == r.taken[i] + if Taken(cfg, r.s, env, i) then [r.s.inputs[i][0]] else [])
    && (forall o :: 0 <= o < cfg.n ==>
          t.sent[o] == r.sent[o] + if Sends(r.s, env, o) then [r.s.outputs[o][0]] else [])
    && (forall o :: 0 <= o < cfg.n ==>
          var m := Source(cfg, r.s, env, o);
          t.granted[o] == r.granted[o] + if m.Some? then [(m.value, r.s.inputs[m.value][0])] else [])
  }

  ghost predicate Step(cfg: Config, r: Run, e: Event, t: Run)
    requires cfg.Valid() && r.Shaped(cfg.n)
  {
    match e
    case Arrive(i, flit) => Arrives(cfg, r, i, flit, t)
    case Accepts(o, cycle) =>
      && 0 <= o < cfg.n
      && t == r.(s := r.s.(stalled := r.s.stalled[o := false], unstallCycle := r.s.unstallCycle[o := cycle]))
    case Cycle(env) => Ticks(cfg, r, env, t)
  }

  predicate JoinedAt(g: seq<(int, Flit)>, k: int)
    requires 0 < k < |g|
  {
    g[k - 1].1.isLast || (g[k].0 == g[k - 1].0 && g[k].1.packet == g[k - 1].1.packet)
  }

  /** Between two tails, an output passes flits of one packet from one input. */
  ghost predicate Unmixed(g: seq<(int, Flit)>) {
    forall k :: 0 < k < |g| ==> JoinedAt(g, k)
  }

  predicate FollowsAt(stream: seq<Flit>, k: int)
    requires 0 <= k < |stream|
  {
    Follows(stream[..k], stream[k])
  }

  ghost predicate Whole(stream: seq<Flit>) {
    forall k :: 0 <= k < |stream| ==> FollowsAt(stream, k)
  }

  function Flits(g: seq<(int, Flit)>): (r: seq<Flit>)
    ensures |r| == |g| && forall k :: 0 <= k < |g| ==> r[k] == g[k].1
  {
    if g == [] then [] else Flits(g[..|g| - 1]) + [g[|g| - 1].1]
  }

  /** What output history `g` got from input `i`. */
  function From(g: seq<(int, Flit)>, i: int): seq<Flit> {
    if g == [] then []
    else From(g[..|g| - 1], i) + if g[|g| - 1].0 == i then [g[|g| - 1].1] else []
  }

  /** What of an input stream is routed to output `o`. */
  function For(cfg: Config, stream: seq<Flit>, o: int): seq<Flit> {
    if stream == [] then []
    else
      var f := stream[|stream| - 1];
      For(cfg, stream[..|stream| - 1], o) + if cfg.OutputPort(f.dest) == Some(o) then [f] else []
  }

  /** Nothing is lost or reordered in an input queue, and its sender holds off exactly when it is full. */
  ghost predicate InputInv(cfg: Config, r: Run, i: int)
    requires cfg.Valid() && r.Shaped(cfg.n) && 0 <= i < cfg.n
  {
    && r.arrived[i] == r.taken[i] + r.s.inputs[i] && Whole(r.arrived[i])
    && r.held[i] == (|r.s.inputs[i]| == cfg.capacity[i])
  }

  /** In the middle of a packet, the output belongs to the packet's input. */
  predicate Open(cfg: Config, r: Run, o: int)
    requires cfg.Valid() && r.Shaped(cfg.n) && 0 <= o < cfg.n
  {
    var g := r.granted[o];
    g != [] && !g[|g| - 1].1.isLast ==>
      var (i, f) := g[|g| - 1];
      && 0 <= i < cfg.n && r.s.arbs[o].lockQ && Holder(r.s.arbs[o], cfg.levels) == i
      && r.taken[i] != [] && r.taken[i][|r.taken[i]| - 1] == f && cfg.OutputPort(f.dest) == Some(o)
  }

  ghost predicate OutputInv(cfg: Config, r: Run, o: int)
    requires cfg.Valid() && r.Shaped(cfg.n) && 0 <= o < cfg.n
  {
    Flits(r.granted[o]) == r.sent[o] + r.s.outputs[o] && Unmixed(r.granted[o]) && Open(cfg, r, o)
  }

  /** Output `o` got from input `i` exactly what `i` had for it, in order. */
  predicate Conserved(cfg: Config, r: Run, i: int, o: int)
    requires cfg.Valid() && r.Shaped(cfg.n) && 0 <= i < cfg.n && 0 <= o < cfg.n
  {
    From(r.granted[o], i) == For(cfg, r.taken[i], o)
  }

  ghost predicate Inv(cfg: Config, r: Run)
    requires cfg.Valid()
  {
    && r.Shaped(cfg.n) && r.s.Valid(cfg)
    && (forall i :: 0 <= i < cfg.n ==> InputInv(cfg, r, i))
    && (forall o :: 0 <= o < cfg.n ==> OutputInv(cfg, r, o))
    && forall i, o :: 0 <= i < cfg.n && 0 <= o < cfg.n ==> Conserved(cfg, r, i, o)
  }

  lemma WholeExtends(stream: seq<Flit>, f: Flit)
    requires Whole(stream) && Follows(stream, f)
    ensures Whole(stream + [f])
  {
    var t := stream + [f];
    forall k | 0 <= k < |t| ensures FollowsAt(t, k) {
      assert t[..k] == stream[..k];
      assert k < |stream| ==> FollowsAt(stream, k);
    }
  }

  lemma ArriveKeeps(cfg: Config, r: Run, i: int, flit: Flit, t: Run)
    requires cfg.Valid() && Inv(cfg, r) && Arrives(cfg, r, i, flit, t)
    ensures Inv(cfg, t)
  {
    assert InputInv(cfg, r, i);
    WholeExtends(r.arrived[i], flit);
    forall k | 0 <= k < cfg.n ensures InputInv(cfg, t, k) && cfg.Routed(t.s.inputs[k]) {
      assert InputInv(cfg, r, k) && cfg.Routed(r.s.inputs[k]);
      assert r.taken[i] + r.s.inputs[i] + [flit] == r.taken[i] + (r.s.inputs[i] + [flit]);
    }
    forall o | 0 <= o < cfg.n ensures OutputInv(cfg, t, o) {
      assert OutputInv(cfg, r, o);
    }
    forall k, o | 0 <= k < cfg.n && 0 <= o < cfg.n ensures Conserved(cfg, t, k, o) {
      assert Conserved(cfg, r, k, o);
    }
  }

  lemma AcceptsKeeps(cfg: Config, r: Run, o: int, cycle: int, t: Run)
    requires cfg.Valid() && Inv(cfg, r) && Step(cfg, r, Accepts(o, cycle), t)
    ensures Inv(cfg, t)
  {
    forall k | 0 <= k < cfg.n ensures InputInv(cfg, t, k) && OutputInv(cfg, t, k) {
      assert InputInv(cfg, r, k) && OutputInv(cfg, r, k);
    }
    forall i, k | 0 <= i < cfg.n && 0 <= k < cfg.n ensures Conserved(cfg, t, i, k) {
      assert Conserved(cfg, r, i, k);
    }
  }

  lemma TickKeepsInput(cfg: Config, r: Run, env: Env, t: Run, i: int)
    requires cfg.Valid() && Inv(cfg, r) && Ticks(cfg, r, env, t) && 0 <= i < cfg.n
    ensures InputInv(cfg, t, i)
  {
    assert InputInv(cfg, r, i);
    if Taken(cfg, r.s, env, i) {
      MoveHead(r.taken[i], r.s.inputs[i]);
    }
  }

  /** Output `o` takes from input `i` exactly when the head of `i` is taken and wants `o`. */
  lemma TakenIsSource(cfg: Config, s: State, env: Env, i: int, o: int)
    requires cfg.Valid() && s.Shaped(cfg.n) && 0 <= i < cfg.n && 0 <= o < cfg.n
    ensures Source(cfg, s, env, o) == Some(i) <==> Taken(cfg, s, env, i) && HeadOutput(cfg, s, env, i) == o
    ensures Taken(cfg, s, env, i) ==>
      s.inputs[i] != [] && cfg.OutputPort(s.inputs[i][0].dest) == Some(HeadOutput(cfg, s, env, i))
  {
  }

  lemma FromAppend(g: seq<(int, Flit)>, e: (int, Flit), i: int)
    ensures From(g + [e], i) == From(g, i) + if e.0 == i then [e.1] else []
  {
    assert (g + [e])[..|g|] == g;
  }

  lemma ForAppend(cfg: Config, stream: seq<Flit>, f: Flit, o: int)
    ensures For(cfg, stream + [f], o) == For(cfg, stream, o) + if cfg.OutputPort(f.dest) == Some(o) then [f] else []
  {
    assert (stream + [f])[..|stream|] == stream;
  }

  lemma TickConserves(cfg: Config, r: Run, env: Env, t: Run, i: int, o: int)
    requires cfg.Valid() && r.Shaped(cfg.n) && 0 <= i < cfg.n && 0 <= o < cfg.n
    requires Conserved(cfg, r, i, o) && Ticks(cfg, r, env, t)
    ensures Conserved(cfg, t, i, o)
  {
    TakenIsSource(cfg, r.s, env, i, o);
    var m := Source(cfg, r.s, env, o);
    if m.Some? {
      FromAppend(r.granted[o], (m.value, r.s.inputs[m.value][0]), i);
    } else {
      assert t.granted[o] == r.granted[o];
    }
    if Taken(cfg, r.s, env, i) {
      ForAppend(cfg, r.taken[i], r.s.inputs[i][0], o);
    } else {
      assert t.taken[i] == r.taken[i];
    }
  }

  /** The head of an input queue continues the packet that was cut off before it. */
  lemma HeadFollows(cfg: Config, r: Run, i: int)
    requires cfg.Valid() && r.Shaped(cfg.n) && 0 <= i < cfg.n && InputInv(cfg, r, i)
    requires r.s.inputs[i] != [] && r.taken[i] != [] && !r.taken[i][|r.taken[i]| - 1].isLast
    ensures
      var f, h := r.taken[i][|r.taken[i]| - 1], r.s.inputs[i][0];
      h.packet == f.packet && h.dest == f.dest
  {
    var k := |r.taken[i]|;
    assert FollowsAt(r.arrived[i], k);
    assert r.arrived[i][..k] == r.taken[i];
  }

  /** Moving the head of a queue to the end of its history changes nothing of the two together. */
  lemma MoveHead(sent: seq<Flit>, queue: seq<Flit>)
    requires queue != []
    ensures sent + [queue[0]] + queue[1..] == sent + queue
  {
  }

  lemma FifoMoves(g: seq<(int, Flit)>, entry: seq<(int, Flit)>, sent: seq<Flit>, moved: seq<Flit>, rest: seq<Flit>)
    requires Flits(g) == sent + (moved + rest)
    ensures Flits(g + entry) == sent + moved + (rest + Flits(entry))
  {
  }

  lemma TickKeepsFifo(cfg: Config, r: Run, env: Env, t: Run, o: int)
    requires cfg.Valid() && r.Shaped(cfg.n) && Ticks(cfg, r, env, t) && 0 <= o < cfg.n
    requires Flits(r.granted[o]) == r.sent[o] + r.s.outputs[o]
    ensures Flits(t.granted[o]) == t.sent[o] + t.s.outputs[o]
  {
    var m, queue, rest := Source(cfg, r.s, env, o), r.s.outputs[o], Linked(r.s, env, o);
    var moved := if Sends(r.s, env, o) then [queue[0]] else [];
    var entry := if m.Some? then [(m.value, r.s.inputs[m.value][0])] else [];
    assert queue == moved + rest;
    FifoMoves(r.granted[o], entry, r.sent[o], moved, rest);
    assert t.granted[o] == r.granted[o] + entry && t.sent[o] == r.sent[o] + moved;
  }

  lemma UnmixedExtends(g: seq<(int, Flit)>, e: (int, Flit))
    requires Unmixed(g) && (g == [] || JoinedAt([g[|g| - 1], e], 1))
    ensures Unmixed(g + [e])
  {
    var g' := g + [e];
    forall k | 0 < k < |g'| ensures JoinedAt(g', k) {
      if k < |g| {
        assert JoinedAt(g, k);
      }
    }
  }

  /** The flit an output takes next continues its packet. */
  lemma GrantJoins(cfg: Config, r: Run, o: int, i: int)
    requires cfg.Valid() && r.Shaped(cfg.n) && 0 <= o < cfg.n && 0 <= i < cfg.n
    requires Open(cfg, r, o) && InputInv(cfg, r, i) && r.s.inputs[i] != []
    requires r.s.arbs[o].lockQ ==> Holder(r.s.arbs[o], cfg.levels) == i
    ensures r.granted[o] == [] || JoinedAt([r.granted[o][|r.granted[o]| - 1], (i, r.s.inputs[i][0])], 1)
  {
    var g := r.granted[o];
    if g != [] && !g[|g| - 1].1.isLast {
      HeadFollows(cfg, r, i);
    }
  }

  /** The input in the middle of a packet gives its flits to no other output. */
  lemma HolderKeepsFlit(cfg: Config, r: Run, env: Env, t: Run, o: int)
    requires cfg.Valid() && Inv(cfg, r) && Ticks(cfg, r, env, t) && 0 <= o < cfg.n
    requires Source(cfg, r.s, env, o) == None && r.granted[o] != []
    requires Open(cfg, r, o) && !r.granted[o][|r.granted[o]| - 1].1.isLast
    ensures t.taken[r.granted[o][|r.granted[o]| - 1].0] == r.taken[r.granted[o][|r.granted[o]| - 1].0]
  {
    var i := r.granted[o][|r.granted[o]| - 1].0;
    assert InputInv(cfg, r, i);
    TakenIsSource(cfg, r.s, env, i, o);
    if r.s.inputs[i] != [] {
      HeadFollows(cfg, r, i);
    }
  }

  lemma TickKeepsOpen(cfg: Config, r: Run, env: Env, t: Run, o: int)
    requires cfg.Valid() && Inv(cfg, r) && Ticks(cfg, r, env, t) && 0 <= o < cfg.n
    ensures Unmixed(t.granted[o]) && Open(cfg, t, o)
  {
    assert OutputInv(cfg, r, o);
    SeenIsOk(cfg, r.s, env, o);
    HoldsUntilTail(r.s.arbs[o], SeenBy(cfg, r.s, env, o), cfg.n, cfg.levels);
    var g, m := r.granted[o], Source(cfg, r.s, env, o);
    if m.Some? {
      assert InputInv(cfg, r, m.value);
      TakenIsSource(cfg, r.s, env, m.value, o);
      GrantJoins(cfg, r, o, m.value);
      UnmixedExtends(g, (m.value, r.s.inputs[m.value][0]));
    } else {
      assert t.granted[o] == g;
      if g != [] && !g[|g| - 1].1.isLast {
        HolderKeepsFlit(cfg, r, env, t, o);
      }
    }
  }

  lemma TickKeeps(cfg: Config, r: Run, env: Env, t: Run)
    requires cfg.Valid() && Inv(cfg, r) && Ticks(cfg, r, env, t)
    ensures Inv(cfg, t)
  {
    CycleKeepsValid(cfg, r.s, env, t.s);
    forall i | 0 <= i < cfg.n ensures InputInv(cfg, t, i) {
      TickKeepsInput(cfg, r, env, t, i);
    }
    forall o | 0 <= o < cfg.n ensures OutputInv(cfg, t, o) {
      assert OutputInv(cfg, r, o);
      TickKeepsFifo(cfg, r, env, t, o);
      TickKeepsOpen(cfg, r, env, t, o);
    }
    forall i, o | 0 <= i < cfg.n && 0 <= o < cfg.n ensures Conserved(cfg, t, i, o) {
      assert Conserved(cfg, r, i, o);
      TickConserves(cfg, r, env, t, i, o);
    }
  }

  ghost predicate StepAt(cfg: Config, runs: seq<Run>, events: seq<Event>, k: int)
    requires cfg.Valid() && 0 <= k < |events| && |runs| == |events| + 1
  {
    runs[k].Shaped(cfg.n) && Step(cfg, runs[k], events[k], runs[k + 1])
  }

  /** Every reachable state, for any traffic, any delays and any next nodes. */
  ghost predicate IsBehaviour(cfg: Config, runs: seq<Run>, events: seq<Event>)
    requires cfg.Valid()
  {
    && |runs| == |events| + 1 && IsStart(cfg, runs[0])
    && forall k :: 0 <= k < |events| ==> StepAt(cfg, runs, events, k)
  }

  lemma StartIsOk(cfg: Config, r: Run)
    requires cfg.Valid() && IsStart(cfg, r)
    ensures Inv(cfg, r)
  {
  }

  /** The invariant holds throughout every run. */
  lemma {:induction false} AllRunsKeepInv(cfg: Config, runs: seq<Run>, events: seq<Event>, k: nat)
    requires cfg.Valid() && IsBehaviour(cfg, runs, events) && k < |runs|
    ensures Inv(cfg, runs[k])
  {
    if k == 0 {
      StartIsOk(cfg, runs[0]);
    } else {
      AllRunsKeepInv(cfg, runs, events, k - 1);
      assert StepAt(cfg, runs, events, k - 1);
      match events[k - 1]
      case Arrive(i, flit) => ArriveKeeps(cfg, runs[k - 1], i, flit, runs[k]);
      case Accepts(o, cycle) => AcceptsKeeps(cfg, runs[k - 1], o, cycle, runs[k]);
      case Cycle(env) => TickKeeps(cfg, runs[k - 1], env, runs[k]);
    }
  }

  /** No tail in `from..to`. */
  predicate NoTail(g: seq<(int, Flit)>, from: int, to: int)
    requires 0 <= from <= to <= |g|
  {
    forall k :: from <= k < to ==> !g[k].1.isLast
  }

  lemma {:induction false} OnePacketBetweenTails(g: seq<(int, Flit)>, a: int, b: int)
    requires Unmixed(g) && 0 <= a <= b < |g| && NoTail(g, a, b)
    ensures g[b].0 == g[a].0 && g[b].1.packet == g[a].1.packet
    decreases b - a
  {
    if a < b {
      OnePacketBetweenTails(g, a, b - 1);
      assert JoinedAt(g, b);
    }
  }

  /** Wormhole integrity: in every run, two flits on a link with no tail between them come from one
      input and belong to one packet. */
  lemma LinksCarryWholePackets(cfg: Config, runs: seq<Run>, events: seq<Event>, k: nat, o: int, a: int, b: int)
    requires cfg.Valid() && IsBehaviour(cfg, runs, events) && k < |runs| && 0 <= o < cfg.n
    requires runs[k].Shaped(cfg.n) && 0 <= a <= b < |runs[k].sent[o]|
    requires forall j :: a <= j < b ==> !runs[k].sent[o][j].isLast
    ensures |runs[k].granted[o]| >= |runs[k].sent[o]| && runs[k].granted[o][a].0 == runs[k].granted[o][b].0
    ensures runs[k].sent[o][a].packet == runs[k].sent[o][b].packet
  {
    AllRunsKeepInv(cfg, runs, events, k);
    var g := runs[k].granted[o];
    assert OutputInv(cfg, runs[k], o);
    forall j | 0 <= j < |runs[k].sent[o]| ensures g[j].1 == runs[k].sent[o][j] {
      assert Flits(g)[j] == runs[k].sent[o][j];
    }
    OnePacketBetweenTails(g, a, b);
  }
}
