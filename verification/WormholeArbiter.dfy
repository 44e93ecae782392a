/** The wormhole arbiter of one router output (`OutputArbiter`, pulp/floonoc_v2/floonoc_router_v2.cpp):
    one cycle of its state, what every cycle keeps, and bounded waiting. */
module WormholeArbiter {
  import opened Wrappers
  import opened Bits
  import opened Arbiter

  /** `valid_q`, `last_q`, `req_q`, `lock_q`, `rr_q` */
  datatype Arb = Arb(validQ: set<int>, lastQ: bool, reqQ: set<int>, lockQ: bool, rrQ: int)

  const RESET := Arb({}, false, {}, false, 0)

  /** What the arbiter of an output sees in a cycle: the inputs whose head flit wants the output, those
      whose head flit is a tail, and whether the output FIFO has room. */
  datatype Seen = Seen(valid: set<int>, tails: set<int>, ready: bool)

  function ValidD(arb: Arb, seen: Seen): set<int> {
    if arb.validQ == {} || arb.lastQ then seen.valid else arb.validQ
  }

  function Requests(arb: Arb, seen: Seen): set<int> {
    if arb.lockQ then arb.reqQ else ValidD(arb, seen)
  }

  function Chosen(arb: Arb, seen: Seen, levels: nat): int {
    if Requests(arb, seen) != {} && seen.valid != {} then Select(Requests(arb, seen), arb.rrQ, 0, levels) else 0
  }

  /** The input whose head flit goes through in this cycle. */
  function Moved(arb: Arb, seen: Seen, levels: nat): (m: Option<int>)
    ensures m.Some? ==> m.value in seen.valid && seen.ready
  {
    if Chosen(arb, seen, levels) in seen.valid && seen.ready then Some(Chosen(arb, seen, levels)) else None
  }

  /** A tail flit goes through. */
  predicate TailGranted(arb: Arb, seen: Seen, levels: nat) {
    Moved(arb, seen, levels).Some? && Moved(arb, seen, levels).value in seen.tails
  }

  function ArbStep(arb: Arb, seen: Seen, n: int, levels: nat): Arb {
    var req := Requests(arb, seen);
    var grant := TailGranted(arb, seen, levels);
    Arb(ValidD(arb, seen), grant, req, req != {} && !grant,
        if grant && req != {} then Next(req, arb.rrQ, n) else arb.rrQ)
  }

  /** Kept by every cycle: the locked requests are the latched ones, and an arbiter is unlocked only
      when idle or right after a tail. */
  predicate ArbOk(arb: Arb, n: int) {
    && Within(arb.validQ, n) && arb.reqQ == arb.validQ && 0 <= arb.rrQ < n
    && (if arb.lockQ then arb.validQ != {} && !arb.lastQ else arb.validQ == {} || arb.lastQ)
  }

  predicate SeenOk(seen: Seen, n: int, levels: nat) {
    Within(seen.valid, n) && n <= Pow2(levels)
  }

  lemma StepKeepsOk(arb: Arb, seen: Seen, n: int, levels: nat)
    requires ArbOk(arb, n) && SeenOk(seen, n, levels)
    ensures ArbOk(ArbStep(arb, seen, n, levels), n)
    ensures Requests(arb, seen) == if arb.lockQ then arb.validQ else seen.valid
  {
    var req := Requests(arb, seen);
    if TailGranted(arb, seen, levels) && req != {} {
      HasMember(req);
      var w :| w in req;
      NextPassesNobody(req, arb.rrQ, n, w);
    }
  }

  /** The shortcut for an idle arbiter leaves out nothing. */
  lemma IdleIsNoop(arb: Arb, seen: Seen, n: int, levels: nat)
    requires ArbOk(arb, n) && seen.valid == {} && arb.validQ == {} && !arb.lockQ && !arb.lastQ
    ensures ArbStep(arb, seen, n, levels) == arb && Moved(arb, seen, levels) == None
  {
  }

  /** The input a locked arbiter belongs to. */
  function Holder(arb: Arb, levels: nat): int {
    Select(arb.reqQ, arb.rrQ, 0, levels)
  }

  /** Wormhole: once a flit that is no tail went through, the output belongs to its input; and an
      output that belongs to an input passes flits of no other one until its tail. */
  lemma HoldsUntilTail(arb: Arb, seen: Seen, n: int, levels: nat)
    requires ArbOk(arb, n) && SeenOk(seen, n, levels)
    ensures
      var next := ArbStep(arb, seen, n, levels);
      var moved := Moved(arb, seen, levels);
      && (arb.lockQ && moved.Some? ==> moved.value == Holder(arb, levels))
      && (arb.lockQ && !TailGranted(arb, seen, levels) ==> next.lockQ && Holder(next, levels) == Holder(arb, levels))
      && (moved.Some? && !TailGranted(arb, seen, levels) ==> next.lockQ && Holder(next, levels) == moved.value)
      && (TailGranted(arb, seen, levels) ==> !next.lockQ)
  {
  }

  /** A free output with room takes a flit whenever there is one, and a held one whenever its holder
      has one. */
  lemma WorkConserving(arb: Arb, seen: Seen, n: int, levels: nat)
    requires ArbOk(arb, n) && SeenOk(seen, n, levels) && seen.ready
    ensures !arb.lockQ && seen.valid != {} ==> Moved(arb, seen, levels).Some?
    ensures arb.lockQ && Holder(arb, levels) in seen.valid ==> Moved(arb, seen, levels) == Some(Holder(arb, levels))
  {
    if !arb.lockQ && seen.valid != {} {
      SelectPicks(seen.valid, arb.rrQ, n, levels);
    }
  }

  /** How many packets can still go before input `w`. */
  function Behind(arb: Arb, w: int, n: int): int {
    if arb.lockQ && w !in arb.reqQ then n else Ahead(arb.rrQ, w, n)
  }

  /** No cycle pushes a waiting input back, and every tail that goes first brings it closer. */
  lemma WaitShrinks(arb: Arb, seen: Seen, n: int, levels: nat, w: int)
    requires ArbOk(arb, n) && SeenOk(seen, n, levels) && w in seen.valid && Moved(arb, seen, levels) != Some(w)
    ensures
      var next := ArbStep(arb, seen, n, levels);
      && 0 <= Behind(arb, w, n) <= n
      && 0 <= Behind(next, w, n) <= Behind(arb, w, n)
      && (TailGranted(arb, seen, levels) ==> Behind(next, w, n) < Behind(arb, w, n))
  {
    var req := Requests(arb, seen);
    StepKeepsOk(arb, seen, n, levels);
    if TailGranted(arb, seen, levels) && w in req {
      SelectPicks(req, arb.rrQ, n, levels);
      NextPassesNobody(req, arb.rrQ, n, w);
    }
  }

  /** The arbiter after a number of cycles. */
  function After(arb: Arb, cycles: seq<Seen>, n: int, levels: nat): Arb {
    if cycles == [] then arb
    else ArbStep(After(arb, cycles[..|cycles| - 1], n, levels), cycles[|cycles| - 1], n, levels)
  }

  /** How many packets went through in them. */
  function Tails(arb: Arb, cycles: seq<Seen>, n: int, levels: nat): nat {
    if cycles == [] then 0
    else
      var before := cycles[..|cycles| - 1];
      Tails(arb, before, n, levels)
      + if TailGranted(After(arb, before, n, levels), cycles[|cycles| - 1], levels) then 1 else 0
  }

  /** Input `w` wants the output in every cycle and gets it in none. */
  ghost predicate KeepsWaiting(arb: Arb, cycles: seq<Seen>, n: int, levels: nat, w: int) {
    forall k :: 0 <= k < |cycles| ==>
      && SeenOk(cycles[k], n, levels) && w in cycles[k].valid
      && Moved(After(arb, cycles[..k], n, levels), cycles[k], levels) != Some(w)
  }

  /** Bounded waiting: however long an input waits for an output, at most `n` packets go before it. */
  lemma {:induction false} BoundedWaiting(arb: Arb, cycles: seq<Seen>, n: int, levels: nat, w: int)
    requires ArbOk(arb, n) && KeepsWaiting(arb, cycles, n, levels, w) && 0 <= w < n
    ensures ArbOk(After(arb, cycles, n, levels), n)
    ensures 0 <= Behind(After(arb, cycles, n, levels), w, n)
    ensures Tails(arb, cycles, n, levels) + Behind(After(arb, cycles, n, levels), w, n) <= Behind(arb, w, n) <= n
    decreases |cycles|
  {
    if cycles != [] {
      var k := |cycles| - 1;
      var before := cycles[..k];
      forall j | 0 <= j < |before|
        ensures
          && SeenOk(before[j], n, levels) && w in before[j].valid
          && Moved(After(arb, before[..j], n, levels), before[j], levels) != Some(w)
      {
        assert before[..j] == cycles[..j];
        assert SeenOk(cycles[j], n, levels);
      }
      BoundedWaiting(arb, before, n, levels, w);
      assert SeenOk(cycles[k], n, levels);
      WaitShrinks(After(arb, before, n, levels), cycles[k], n, levels, w);
      StepKeepsOk(After(arb, before, n, levels), cycles[k], n, levels);
    }
  }
}
