/** The injection queue of a network interface (`NetworkQueueV2`,
    pulp/floonoc_v2/floonoc_network_interface_v2.cpp): several inputs share one link, packet by packet. */
module NiQueue {
  import opened Wrappers
  import opened Arbiter
  import opened Router
  import opened RouterRuns

  const INPUT_DEPTH := 2

  datatype Queue = Queue(inputs: seq<seq<Flit>>, locked: int, rr: int, owesRoom: seq<bool>,
                         stalled: bool, lastInject: int, unstallCycle: int)
  {
    /** An input owes its producer a notification only while it has no room. */
    predicate Valid() {
      && |owesRoom| == |inputs| > 0 && 0 <= rr < |inputs| && -1 <= locked < |inputs|
      && forall i :: 0 <= i < |inputs| && owesRoom[i] ==> |inputs[i]| >= INPUT_DEPTH
    }
  }

  function EmptyQueue(nbInputs: nat): Queue {
    Queue(seq(nbInputs, _ => []), -1, 0, seq(nbInputs, _ => false), false, -1, -1)
  }

  /** The first input from `input` on, among `left` of them on the circle, that has a flit. */
  function Scan(inputs: seq<seq<Flit>>, input: int, left: nat): (r: int)
    requires 0 <= input < |inputs|
    ensures r == -1 || (0 <= r < |inputs| && inputs[r] != [])
    decreases left
  {
    if left == 0 then -1
    else if inputs[input] != [] then input
    else Scan(inputs, if input + 1 == |inputs| then 0 else input + 1, left - 1)
  }

  function NextReady(q: Queue): (r: int)
    requires q.Valid()
    ensures r == -1 || (0 <= r < |q.inputs| && q.inputs[r] != [])
  {
    if q.locked != -1 then if q.inputs[q.locked] != [] then q.locked else -1
    else Scan(q.inputs, q.rr, |q.inputs|)
  }

  /** The scan stops at the first input with a flit: it passes none, and misses none. */
  lemma {:induction false} ScanIsFirst(inputs: seq<seq<Flit>>, input: int, left: nat, w: int)
    requires 0 <= input < |inputs| && 0 <= w < |inputs| && left <= |inputs|
    requires inputs[w] != [] && Ahead(input, w, |inputs|) < left
    ensures
      var r := Scan(inputs, input, left);
      r != -1 && Ahead(input, r, |inputs|) <= Ahead(input, w, |inputs|)
    decreases left
  {
    if inputs[input] == [] {
      ScanIsFirst(inputs, if input + 1 == |inputs| then 0 else input + 1, left - 1, w);
    }
  }

  /** A push by a producer, a router that accepts flits again, or a turn of the link; `full` is the
      router's answer to a flit. */
  datatype Event = Push(i: int, flit: Flit) | Unstall(cycle: int) | Check(cycle: int, full: bool)

  predicate Applicable(q: Queue, e: Event) {
    e.Push? ==> 0 <= e.i < |q.inputs|
  }

  /** The input whose head flit goes on the link, -1 if none. */
  function Injects(q: Queue, e: Event): (r: int)
    requires q.Valid()
    ensures r == -1 || (0 <= r < |q.inputs| && q.inputs[r] != [])
  {
    if e.Check? && !q.stalled && q.lastInject != e.cycle && q.unstallCycle != e.cycle then NextReady(q) else -1
  }

  /** `send_router_req` */
  function AfterSend(q: Queue, input: int, cycle: int, full: bool): Queue
    requires q.Valid() && 0 <= input < |q.inputs| && q.inputs[input] != []
  {
    var flit, rest := q.inputs[input][0], q.inputs[input][1..];
    q.(inputs := q.inputs[input := rest],
       rr := if q.locked != -1 then q.rr else if input + 1 == |q.inputs| then 0 else input + 1,
       locked := if flit.isLast then -1 else input,
       lastInject := cycle, stalled := full,
       owesRoom := if |rest| < INPUT_DEPTH then q.owesRoom[input := false] else q.owesRoom)
  }

  lemma AfterSendValid(q: Queue, input: int, cycle: int, full: bool)
    requires q.Valid() && 0 <= input < |q.inputs| && q.inputs[input] != []
    ensures AfterSend(q, input, cycle, full).Valid()
  {
  }

  function After(q: Queue, e: Event): Queue
    requires q.Valid() && Applicable(q, e)
  {
    match e
    case Push(i, flit) => q.(inputs := q.inputs[i := q.inputs[i] + [flit]])
    case Unstall(cycle) => q.(stalled := false, unstallCycle := cycle)
    case Check(cycle, full) => if Injects(q, e) == -1 then q else AfterSend(q, Injects(q, e), cycle, full)
  }

  /** What an input is owed stays owed until it has room, and no longer: a notification means room. */
  lemma OwedUntilRoom(q: Queue, e: Event, k: int)
    requires q.Valid() && Applicable(q, e) && 0 <= k < |q.inputs|
    ensures
      var t := After(q, e);
      |t.owesRoom| == |t.inputs| == |q.inputs| && (t.owesRoom[k] <==> q.owesRoom[k] && |t.inputs[k]| >= INPUT_DEPTH)
  {
  }

  /** `NetworkQueueV2` */
  class NetworkQueue {
    var inputs: seq<seq<Flit>>
    var lockedInput: int
    var rrInput: int
    var owesRoom: seq<bool>
    var stalled: bool
    var lastInjectCycle: int
    var unstallCycle: int

    function View(): Queue
      reads this
    {
      Queue(inputs, lockedInput, rrInput, owesRoom, stalled, lastInjectCycle, unstallCycle)
    }

    constructor (nbInputs: int)
      requires nbInputs > 0
      ensures View() == EmptyQueue(nbInputs) && View().Valid()
    {
      inputs := seq(nbInputs, _ => []);
      owesRoom := seq(nbInputs, _ => false);
      lockedInput, rrInput, stalled, lastInjectCycle, unstallCycle := -1, 0, false, -1, -1;
    }

    /** Whether the input can take a flit; if not, its producer is owed a notification. */
    method Reserve(input: int) returns (room: bool)
      requires View().Valid() && 0 <= input < |inputs|
      modifies this`owesRoom
      ensures View().Valid() && (room <==> |inputs[input]| < INPUT_DEPTH)
      ensures owesRoom == if room then old(owesRoom) else old(owesRoom)[input := true]
    {
      if |inputs[input]| < INPUT_DEPTH {
        return true;
      }
      owesRoom := owesRoom[input := true];
      return false;
    }

    method Enqueue(flit: Flit, input: int)
      requires View().Valid() && 0 <= input < |inputs|
      modifies this`inputs
      ensures View() == After(old(View()), Push(input, flit)) && View().Valid()
    {
      inputs := inputs[input := inputs[input] + [flit]];
    }

    method NextInput() returns (r: int)
      requires View().Valid()
      ensures r == NextReady(View())
    {
      if lockedInput != -1 {
        return if inputs[lockedInput] != [] then lockedInput else -1;
      }
      var input := rrInput;
      for i := 0 to |inputs|
        invariant 0 <= input < |inputs|
        invariant Scan(inputs, input, |inputs| - i) == Scan(inputs, rrInput, |inputs|)
      {
        if inputs[input] != [] {
          return input;
        }
        input := input + 1;
        if input == |inputs| {
          input := 0;
        }
      }
      return -1;
    }

    /** The producer owed a notification gets it with the first room. */
    method SendRouterReq(input: int, cycle: int, full: bool) returns (flit: Flit, notify: bool)
      requires View().Valid() && 0 <= input < |inputs| && inputs[input] != []
      modifies this
      ensures View() == AfterSend(old(View()), input, cycle, full) && View().Valid()
      ensures flit == old(inputs)[input][0]
      ensures notify <==> old(owesRoom)[input] && !owesRoom[input]
    {
      AfterSendValid(View(), input, cycle, full);
      flit := inputs[input][0];
      var rest := inputs[input][1..];
      inputs := inputs[input := rest];
      lastInjectCycle := cycle;
      if lockedInput == -1 {
        rrInput := if input + 1 == |inputs| then 0 else input + 1;
      }
      lockedInput := if flit.isLast then -1 else input;
      stalled := full;
      notify := false;
      if owesRoom[input] && |rest| < INPUT_DEPTH {
        owesRoom := owesRoom[input := false];
        notify := true;
      }
    }

    method Check(cycle: int, full: bool) returns (sent: Option<Flit>, notify: bool)
      requires View().Valid()
      modifies this
      ensures View() == After(old(View()), Event.Check(cycle, full)) && View().Valid()
      ensures
        var i := Injects(old(View()), Event.Check(cycle, full));
        && sent == (if i == -1 then None else Some(old(inputs)[i][0]))
        && (notify <==> i != -1 && old(owesRoom)[i] && !owesRoom[i])
    {
      sent, notify := None, false;
      var input := NextInput();
      if !stalled && input != -1 && lastInjectCycle != cycle && unstallCycle != cycle {
        var flit;
        flit, notify := SendRouterReq(input, cycle, full);
        sent := Some(flit);
      }
    }

    method Unstall(cycle: int)
      requires View().Valid()
      modifies this`stalled, this`unstallCycle
      ensures View() == After(old(View()), Event.Unstall(cycle)) && View().Valid()
    {
      stalled := false;
      unstallCycle := cycle;
    }
  }

  /** A queue with what arrived at each input and what went on the link, with the input it came from. */
  datatype LinkRun = LinkRun(q: Queue, arrived: seq<seq<Flit>>, link: seq<(int, Flit)>)

  function Next(r: LinkRun, e: Event): LinkRun
    requires r.q.Valid() && Applicable(r.q, e) && |r.arrived| == |r.q.inputs|
  {
    var i := Injects(r.q, e);
    LinkRun(After(r.q, e),
        if e.Push? then r.arrived[e.i := r.arrived[e.i] + [e.flit]] else r.arrived,
        if i == -1 then r.link else r.link + [(i, r.q.inputs[i][0])])
  }

  /** Flits are neither lost nor reordered, and the link belongs to the input of an unfinished packet. */
  ghost predicate Inv(r: LinkRun) {
    && r.q.Valid() && |r.arrived| == |r.q.inputs|
    && (forall i :: 0 <= i < |r.arrived| ==> From(r.link, i) + r.q.inputs[i] == r.arrived[i] && Whole(r.arrived[i]))
    && Unmixed(r.link) && LinkOwned(r)
  }

  predicate LinkOwned(r: LinkRun) {
    if r.link == [] || r.link[|r.link| - 1].1.isLast then r.q.locked == -1
    else
      var (i, f) := r.link[|r.link| - 1];
      && 0 <= i < |r.arrived| && r.q.locked == i
      && From(r.link, i) != [] && From(r.link, i)[|From(r.link, i)| - 1] == f
  }

  /** The producers push whole packets. */
  predicate Pushes(r: LinkRun, e: Event) {
    Applicable(r.q, e) && (e.Push? && e.i < |r.arrived| ==> Follows(r.arrived[e.i], e.flit))
  }

  lemma InputKept(r: LinkRun, e: Event, k: int)
    requires Inv(r) && Pushes(r, e) && 0 <= k < |r.arrived|
    ensures From(Next(r, e).link, k) + Next(r, e).q.inputs[k] == Next(r, e).arrived[k] && Whole(Next(r, e).arrived[k])
  {
    var i := Injects(r.q, e);
    if i != -1 {
      FromAppend(r.link, (i, r.q.inputs[i][0]), k);
      MoveHead(From(r.link, i), r.q.inputs[i]);
    }
    if e.Push? && e.i == k {
      WholeExtends(r.arrived[k], e.flit);
      assert From(r.link, k) + (r.q.inputs[k] + [e.flit]) == From(r.link, k) + r.q.inputs[k] + [e.flit];
    }
  }

  /** The head flit of an input continues the packet that its last flit on the link left open. */
  lemma HeadContinues(r: LinkRun, i: int)
    requires Inv(r) && 0 <= i < |r.arrived| && r.q.inputs[i] != []
    requires From(r.link, i) != [] && !From(r.link, i)[|From(r.link, i)| - 1].isLast
    ensures r.q.inputs[i][0].packet == From(r.link, i)[|From(r.link, i)| - 1].packet
  {
    var g := From(r.link, i);
    assert FollowsAt(r.arrived[i], |g|);
    assert r.arrived[i][..|g|] == g;
  }

  lemma LinkKept(r: LinkRun, e: Event)
    requires Inv(r) && Pushes(r, e)
    ensures Unmixed(Next(r, e).link) && LinkOwned(Next(r, e))
  {
    var i := Injects(r.q, e);
    if i != -1 {
      FromAppend(r.link, (i, r.q.inputs[i][0]), i);
      if r.link != [] && !r.link[|r.link| - 1].1.isLast {
        HeadContinues(r, i);
      }
      UnmixedExtends(r.link, (i, r.q.inputs[i][0]));
    }
  }

  /** Every event keeps the invariant. */
  lemma EventKeepsInv(r: LinkRun, e: Event)
    requires Inv(r) && Pushes(r, e)
    ensures Inv(Next(r, e))
  {
    var t := Next(r, e);
    forall k | 0 <= k < |r.arrived|
      ensures From(t.link, k) + t.q.inputs[k] == t.arrived[k] && Whole(t.arrived[k])
    {
      InputKept(r, e, k);
    }
    LinkKept(r, e);
  }

  /** The run after a list of events. */
  function Exec(r: LinkRun, events: seq<Event>): Option<LinkRun> {
    if events == [] then Some(r)
    else
      var before := Exec(r, events[..|events| - 1]);
      var e := events[|events| - 1];
      if before.Some? && before.value.q.Valid() && |before.value.arrived| == |before.value.q.inputs| && Pushes(before.value, e)
      then Some(Next(before.value, e)) else None
  }

  /** Wormhole integrity of the link, in every run of an interface: see `OnePacketBetweenTails`. */
  lemma {:induction false} LinkIsUnmixed(nbInputs: int, events: seq<Event>)
    requires nbInputs > 0
    ensures
      var start := LinkRun(EmptyQueue(nbInputs), seq(nbInputs, _ => []), []);
      var r := Exec(start, events);
      r.Some? ==> Inv(r.value)
    decreases |events|
  {
    if events != [] {
      LinkIsUnmixed(nbInputs, events[..|events| - 1]);
      var start := LinkRun(EmptyQueue(nbInputs), seq(nbInputs, _ => []), []);
      var r, e := Exec(start, events[..|events| - 1]), events[|events| - 1];
      if r.Some? && Pushes(r.value, e) {
        EventKeepsInv(r.value, e);
      }
    }
  }

  /** A packet starts. */
  predicate Starts(q: Queue, e: Event)
    requires q.Valid()
  {
    q.locked == -1 && Injects(q, e) != -1
  }

  /** While an input has a packet ready, every packet of another input that starts brings its turn closer. */
  lemma TurnComesCloser(q: Queue, e: Event, w: int)
    requires q.Valid() && Applicable(q, e) && 0 <= w < |q.inputs| && q.inputs[w] != [] && Injects(q, e) != w
    ensures After(q, e).Valid() && |After(q, e).inputs| == |q.inputs|
    ensures
      var n := |q.inputs|;
      if Starts(q, e) then Ahead(After(q, e).rr, w, n) < Ahead(q.rr, w, n) else After(q, e).rr == q.rr
  {
    if Starts(q, e) {
      ScanIsFirst(q.inputs, q.rr, |q.inputs|, w);
    }
  }

  /** The queues of a run. */
  ghost predicate Waits(qs: seq<Queue>, events: seq<Event>, w: int) {
    && |qs| == |events| + 1
    && forall k :: 0 <= k < |events| ==> WaitsAt(qs, events, w, k)
  }

  /** Input `w` has a flit, it does not go, and the next queue is the one after the event. */
  predicate WaitsAt(qs: seq<Queue>, events: seq<Event>, w: int, k: int)
    requires 0 <= k < |events| && |qs| == |events| + 1
  {
    && qs[k].Valid() && Applicable(qs[k], events[k]) && 0 <= w < |qs[k].inputs|
    && qs[k].inputs[w] != [] && Injects(qs[k], events[k]) != w && qs[k + 1] == After(qs[k], events[k])
  }

  function PacketsStarted(qs: seq<Queue>, events: seq<Event>, k: nat): nat
    requires k <= |events| && |qs| == |events| + 1
  {
    if k == 0 then 0
    else PacketsStarted(qs, events, k - 1) + if qs[k - 1].Valid() && Starts(qs[k - 1], events[k - 1]) then 1 else 0
  }

  /** Bounded waiting: at most one packet of each other input starts while an input waits. */
  lemma {:induction false} InputWaitsBounded(qs: seq<Queue>, events: seq<Event>, w: int, k: nat)
    requires Waits(qs, events, w) && k <= |events| && qs[0].Valid() && 0 <= w < |qs[0].inputs|
    ensures qs[k].Valid() && |qs[k].inputs| == |qs[0].inputs|
    ensures PacketsStarted(qs, events, k) + Ahead(qs[k].rr, w, |qs[0].inputs|) <= Ahead(qs[0].rr, w, |qs[0].inputs|)
    ensures PacketsStarted(qs, events, k) <= |qs[0].inputs| - 1
  {
    if k > 0 {
      InputWaitsBounded(qs, events, w, k - 1);
      assert WaitsAt(qs, events, w, k - 1);
      TurnComesCloser(qs[k - 1], events[k - 1], w);
    }
  }
}
