/** Sleeping and waking up in the cluster event unit (pulp/event_unit/eu_v3_impl.cpp), with all
    interrupt masks zero. Event masks are the sets of their bits. */
module EventUnit {
  import opened Wrappers
  import opened Ring

  datatype CoreState = NotWaiting | WaitingEvent | WaitingBarrier

  /** `wakeup`: the wake-up of the core is scheduled; `result`: what a parked read of the wait register
      returns; `isWait`: the parked request is such a read. */
  datatype Core = Core(status: set<int>, evtMask: set<int>, clearMask: set<int>, state: CoreState,
                       active: bool, wakeup: bool, isWait: bool, result: set<int>)
  {
    /** Asleep, waiting for an event. */
    predicate Waits() { !active && !state.NotWaiting? }

    /** A core that waits has no masked event pending. */
    predicate Quiet() { Waits() ==> evtMask * status == {} }

    /** A core that is asleep and does not wait any more is about to wake up. */
    predicate Scheduled() { !active && state.NotWaiting? ==> wakeup }

    predicate Ok() { (active || wakeup) ==> state.NotWaiting? }
  }

  const FRESH := Core({}, {}, {}, NotWaiting, true, false, false, {})

  function WaitCount(cores: seq<Core>): nat {
    if cores == [] then 0
    else WaitCount(cores[..|cores| - 1]) + if cores[|cores| - 1].Waits() then 1 else 0
  }

  lemma {:induction false} WaitCountUpdate(cores: seq<Core>, i: int, c: Core)
    requires 0 <= i < |cores|
    ensures WaitCount(cores[i := c]) + (if cores[i].Waits() then 1 else 0)
         == WaitCount(cores) + (if c.Waits() then 1 else 0)
    decreases |cores|
  {
    var k := |cores| - 1;
    if i < k {
      WaitCountUpdate(cores[..k], i, c);
      assert cores[i := c][..k] == cores[..k][i := c];
    } else {
      assert cores[i := c][..k] == cores[..k];
    }
  }

  /** All cores are settled, except those of `woken`: they have stopped waiting, and their wake-up will
      be scheduled when the event that woke them is cleared. */
  ghost predicate Inv(cores: seq<Core>, woken: set<int>) { InvBut(cores, woken, -1) }

  /** Core `x`, if any, may have got a masked event that it has not reacted to. */
  ghost predicate InvBut(cores: seq<Core>, woken: set<int>, x: int) {
    && (forall c :: 0 <= c < |cores| ==> cores[c].Ok() && (c != x ==> cores[c].Quiet()))
    && (forall c :: 0 <= c < |cores| && c !in woken ==> cores[c].Scheduled())
    && forall c :: c in woken ==> 0 <= c < |cores| && !cores[c].active && cores[c].state.NotWaiting?
  }

  /** In every settled state, a core that sleeps and waits has no masked event pending, and any other
      sleeping core has its wake-up scheduled. */
  ghost predicate Settled(cores: seq<Core>) { Inv(cores, {}) }

  /** What triggering events does to a core: it may be woken, for a masked event, and then its result
      is never empty; otherwise no event of its is lost. */
  predicate Later(a: Core, b: Core) {
    && b.evtMask == a.evtMask && b.active == a.active && b.isWait == a.isWait && (a.wakeup ==> b.wakeup)
    && if b.state == a.state then b.result == a.result
       else a.Waits() && b.state.NotWaiting?
            && (a.state.WaitingEvent? && a.isWait ==> b.result != {} && b.result <= a.evtMask)
  }

  /** Events are only cleared on core `x`, or on cores that are woken. */
  ghost predicate AllLater(before: seq<Core>, after: seq<Core>, x: int) {
    && |after| == |before|
    && forall c :: 0 <= c < |before| ==> LaterAt(before, after, x, c)
  }

  predicate LaterAt(before: seq<Core>, after: seq<Core>, x: int, c: int)
    requires |after| == |before| && 0 <= c < |before|
  {
    && Later(before[c], after[c])
    && (c != x && after[c].state == before[c].state ==> before[c].status <= after[c].status)
  }

  lemma LaterTransitive(a: seq<Core>, b: seq<Core>, c: seq<Core>, x: int)
    requires AllLater(a, b, x) && AllLater(b, c, -1)
    ensures AllLater(a, c, x)
  {
    forall k | 0 <= k < |a| ensures LaterAt(a, c, x, k) {
      assert LaterAt(a, b, x, k) && LaterAt(b, c, -1, k);
    }
  }

  lemma LaterWoken(a: seq<Core>, b: seq<Core>, c: seq<Core>, i: int)
    requires 0 <= i < |a| && AllLater(a, b, -1) && AllLater(b, c, i) && a[i].Waits() && !b[i].Waits()
    ensures AllLater(a, c, -1)
  {
    forall k | 0 <= k < |a| ensures LaterAt(a, c, -1, k) {
      assert LaterAt(a, b, -1, k) && LaterAt(b, c, i, k);
    }
  }

  /** What core `c` can gain when `events` are sent to the cores of a mask, and the SoC event unit raises
      its own event on all. */
  function GainOf(events: set<int>, coreMask: set<int>, raise: set<int>, c: int): set<int> {
    (if coreMask == {} || c in coreMask then events else {}) + raise
  }

  /** A core gets no other events than these. It stops waiting only for one of them that its mask lets
      through, and its events to clear are then cleared; otherwise only its status changes, if at all. */
  predicate GainAt(a: Core, b: Core, gain: set<int>) {
    && b.evtMask == a.evtMask && b.active == a.active && b.isWait == a.isWait
    && (if b.state == a.state then b == a.(status := b.status) && b.status <= a.status + gain
        else a.Waits() && a.evtMask * (a.status + gain) != {} && b.state.NotWaiting? && b.clearMask == {}
             && b.status <= a.status - a.clearMask + gain)
    && (gain <= a.status && a.Quiet() ==> b == a)
  }

  ghost predicate AllGain(before: seq<Core>, after: seq<Core>, events: set<int>, coreMask: set<int>, raise: set<int>) {
    && |after| == |before|
    && forall c :: 0 <= c < |before| ==> GainAt(before[c], after[c], GainOf(events, coreMask, raise, c))
  }

  lemma GainTransitive(a: Core, b: Core, c: Core, gain: set<int>)
    requires GainAt(a, b, gain) && GainAt(b, c, gain)
    ensures GainAt(a, c, gain)
  {
    if b.state == a.state && c.state != b.state {
      assert b.evtMask * (b.status + gain) <= a.evtMask * (a.status + gain);
    }
  }

  lemma GainWeaken(a: Core, b: Core, less: set<int>, gain: set<int>)
    requires GainAt(a, b, less) && less <= gain
    ensures GainAt(a, b, gain)
  {
    if b.state != a.state {
      assert a.evtMask * (a.status + less) <= a.evtMask * (a.status + gain);
    }
  }

  lemma NoGain(cores: seq<Core>, events: set<int>, coreMask: set<int>, raise: set<int>)
    ensures AllGain(cores, cores, events, coreMask, raise)
  {
  }

  lemma AllGainTransitive(a: seq<Core>, b: seq<Core>, c: seq<Core>, events: set<int>, coreMask: set<int>, raise: set<int>)
    requires AllGain(a, b, events, coreMask, raise) && AllGain(b, c, events, coreMask, raise)
    ensures AllGain(a, c, events, coreMask, raise)
  {
    forall k | 0 <= k < |a| ensures GainAt(a[k], c[k], GainOf(events, coreMask, raise, k)) {
      GainTransitive(a[k], b[k], c[k], GainOf(events, coreMask, raise, k));
    }
  }

  /** What is sent to fewer cores is within what is sent to more. */
  lemma AllGainWeaken(a: seq<Core>, b: seq<Core>, events: set<int>, fewer: set<int>, more: set<int>, coreMask: set<int>,
                      raise: set<int>)
    requires AllGain(a, b, events, fewer, raise)
    requires forall c :: 0 <= c < |a| ==> GainOf(events, fewer, raise, c) <= GainOf(more, coreMask, raise, c)
    ensures AllGain(a, b, more, coreMask, raise)
  {
    forall k | 0 <= k < |a| ensures GainAt(a[k], b[k], GainOf(more, coreMask, raise, k)) {
      GainWeaken(a[k], b[k], GainOf(events, fewer, raise, k), GainOf(more, coreMask, raise, k));
    }
  }

  /** A core after it has cleared the events it asked to clear. */
  function WaitCleared(c: Core): Core {
    c.(status := c.status - c.clearMask, clearMask := {})
  }

  lemma NothingToClear(c: Core)
    requires c.clearMask == {}
    ensures WaitCleared(c) == c
  {
    assert c.status - {} == c.status;
  }

  function Cleared(cores: seq<Core>, i: int, mask: set<int>): seq<Core>
    requires 0 <= i < |cores|
  {
    cores[i := cores[i].(status := cores[i].status - mask)]
  }

  /** Event `e` is pending on every core. */
  ghost predicate Level(cores: seq<Core>, e: int) {
    LevelTo(cores, e, |cores|)
  }

  ghost predicate LevelTo(cores: seq<Core>, e: int, n: int) {
    forall c :: 0 <= c < n && c < |cores| ==> e in cores[c].status
  }

  lemma KeepsLevelTo(a: seq<Core>, b: seq<Core>, c: seq<Core>, e: int, i: int, raised: bool, sent: bool)
    requires raised ==> KeepsLevel(a, b, e) && KeepsLevel(b, c, e)
    requires 0 <= i < |c| && (raised && sent ==> e in c[i].status)
    ensures raised ==> KeepsLevel(a, c, e)
    ensures raised && sent && LevelTo(b, e, i) ==> LevelTo(c, e, i + 1)
  {
  }

  /** Event `e` stays pending where it was. */
  ghost predicate KeepsLevel(before: seq<Core>, after: seq<Core>, e: int) {
    |after| == |before| && forall c :: 0 <= c < |before| && e in before[c].status ==> e in after[c].status
  }

  /** `Event_unit`, its `Core_event_unit`s and the state of its `Soc_event_unit`. */
  class EventUnit {
    var cores: seq<Core>
    var fifo: seq<int>
    var fifoHead: int
    var fifoTail: int
    var nbFree: int
    const fifoEvent: int

    /** The SoC events not read yet, oldest first. */
    function Contents(): seq<int>
      requires FifoOk()
      reads this
    {
      Stored(fifo, fifoTail, |fifo| - nbFree)
    }

    predicate FifoOk()
      reads this
    {
      && |fifo| > 0 && 0 <= nbFree <= |fifo| && 0 <= fifoTail < |fifo|
      && fifoHead == Slot(fifoTail + |fifo| - nbFree, |fifo|)
    }

    /** The SoC event unit has an event for the cores. */
    predicate Raised()
      reads this
    {
      fifoEvent != -1 && nbFree != |fifo|
    }

    /** What a clear may bring back. */
    function Raise(): set<int>
      reads this
    {
      if Raised() then {fifoEvent} else {}
    }

    constructor (nbCores: nat, nbFifoEvents: nat, fifoEvent: int)
      requires nbFifoEvents > 0
      ensures Settled(cores) && |cores| == nbCores && FifoOk() && Contents() == [] && this.fifoEvent == fifoEvent
      ensures forall c :: 0 <= c < nbCores ==> cores[c] == FRESH
    {
      cores := seq(nbCores, _ => FRESH);
      fifo := seq(nbFifoEvents, _ => 0);
      fifoHead, fifoTail, nbFree := 0, 0, nbFifoEvents;
      this.fifoEvent := fifoEvent;
      SlotStep(0, nbFifoEvents);
      DivModIs(0, nbFifoEvents, 0, 0);
    }

    /** `Core_event_unit::check_state`: wakes the core if it waits and a masked event is pending. */
    method CheckState(i: int, ghost woken: set<int>)
      requires 0 <= i < |cores| && InvBut(cores, woken, i)
      modifies this`cores
      ensures old(cores)[i].active ==> cores == old(cores)
      ensures Inv(cores, woken) && AllLater(old(cores), cores, -1) && WaitCount(cores) <= WaitCount(old(cores))
      ensures Raised() ==> KeepsLevel(old(cores), cores, fifoEvent)
      ensures AllGain(old(cores), cores, {}, {}, Raise())
      decreases WaitCount(cores), 0
    {
      var core := cores[i];
      var masked := core.status * core.evtMask;
      if !core.active && masked != {} && !core.state.NotWaiting? {
        cores := cores[i := core.(state := NotWaiting,
                                  result := if core.state.WaitingEvent? && core.isWait then masked else core.result)];
        ghost var before := cores;
        StopsWaiting(old(cores), before, i, woken);
        CheckWaitMask(i, woken + {i});
        ghost var mid := cores;
        WakeSettles(old(cores), before, mid, i, woken, fifoEvent, Raised());
        cores := cores[i := cores[i].(wakeup := true)];
        IsScheduled(old(cores), mid, cores, i, woken, fifoEvent, Raised());
        WakeGains(old(cores), before, mid, cores, i, Raise());
      } else {
        NoGain(cores, {}, {}, Raise());
      }
    }

    /** `check_wait_mask`: clears the events a waiting core asked to clear. */
    method CheckWaitMask(i: int, ghost woken: set<int>)
      requires 0 <= i < |cores| && Inv(cores, woken) && !cores[i].Waits()
      modifies this`cores
      ensures Inv(cores, woken) && AllLater(old(cores), cores, i) && WaitCount(cores) <= WaitCount(old(cores))
      ensures cores[i].clearMask == {}
      ensures AllGain(old(cores)[i := WaitCleared(old(cores)[i])], cores, {}, {}, Raise())
      ensures Raised() ==> KeepsLevel(old(cores), cores, fifoEvent)
      decreases WaitCount(cores), 5
    {
      if cores[i].clearMask != {} {
        ClearStatus(i, cores[i].clearMask, woken);
        ghost var mid := cores;
        cores := cores[i := cores[i].(clearMask := {})];
        ClearSettles(old(cores), mid, cores, i, woken, fifoEvent, Raised());
        ClearGains(old(cores), mid, cores, i, Raise());
      } else {
        NothingToClear(cores[i]);
        assert old(cores)[i := WaitCleared(old(cores)[i])] == cores;
        NoGain(cores, {}, {}, Raise());
      }
    }

    /** `clear_status`; the SoC event unit then raises its event again if it still has one. */
    method ClearStatus(i: int, mask: set<int>, ghost woken: set<int>)
      requires 0 <= i < |cores| && Inv(cores, woken)
      modifies this`cores
      ensures Inv(cores, woken) && AllLater(old(cores), cores, i) && WaitCount(cores) <= WaitCount(old(cores))
      ensures Raised() ==> Level(cores, fifoEvent)
      ensures AllGain(Cleared(old(cores), i, mask), cores, {}, {}, Raise())
      ensures cores[i].status * mask <= Raise()
      decreases WaitCount(cores), 4
    {
      cores := cores[i := cores[i].(status := cores[i].status - mask)];
      WaitCountUpdate(old(cores), i, cores[i]);
      ghost var mid := cores;
      SocCheckState(woken);
      LaterTransitive(old(cores), mid, cores, i);
      ClearedStays(old(cores)[i], mid[i], cores[i], mask, Raise());
    }

    /** `Soc_event_unit::check_state` */
    method SocCheckState(ghost woken: set<int>)
      requires Inv(cores, woken)
      modifies this`cores
      ensures Inv(cores, woken) && AllLater(old(cores), cores, -1) && WaitCount(cores) <= WaitCount(old(cores))
      ensures Raised() ==> KeepsLevel(old(cores), cores, fifoEvent)
      ensures Raised() ==> Level(cores, fifoEvent)
      ensures AllGain(old(cores), cores, {}, {}, Raise())
      decreases WaitCount(cores), 3
    {
      if Raised() {
        TriggerEvent({fifoEvent}, {}, woken);
        AllGainWeaken(old(cores), cores, {fifoEvent}, {}, {}, {}, Raise());
      } else {
        NoGain(cores, {}, {}, Raise());
      }
    }

    /** `trigger_event`: every core of the mask (all of them if it is empty) gets the events. */
    method TriggerEvent(events: set<int>, coreMask: set<int>, ghost woken: set<int>)
      requires Inv(cores, woken)
      modifies this`cores
      ensures Inv(cores, woken) && AllLater(old(cores), cores, -1) && WaitCount(cores) <= WaitCount(old(cores))
      ensures Raised() ==> KeepsLevel(old(cores), cores, fifoEvent)
      ensures Reached(old(cores), cores, events, coreMask)
      ensures Raised() && coreMask == {} && fifoEvent in events ==> Level(cores, fifoEvent)
      ensures AllGain(old(cores), cores, events, coreMask, Raise())
      decreases WaitCount(cores), 2
    {
      NoGain(cores, events, coreMask, Raise());
      for i := 0 to |cores|
        invariant Inv(cores, woken) && AllLater(old(cores), cores, -1) && WaitCount(cores) <= WaitCount(old(cores))
        invariant Raised() ==> KeepsLevel(old(cores), cores, fifoEvent)
        invariant Raised() && coreMask == {} && fifoEvent in events ==> LevelTo(cores, fifoEvent, i)
        invariant ReachedTo(old(cores), cores, events, coreMask, i)
        invariant AllGain(old(cores), cores, events, coreMask, Raise())
      {
        ghost var mid := cores;
        if coreMask == {} || i in coreMask {
          SendEvent(i, events, woken);
          LaterTransitive(old(cores), mid, cores, -1);
          SendGains(old(cores), mid, cores, i, events, coreMask, Raise());
          ReachedMore(old(cores), mid, cores, events, coreMask, i);
          KeepsLevelTo(old(cores), mid, cores, fifoEvent, i, Raised(), fifoEvent in events);
        } else {
          ReachedSkip(old(cores), cores, events, coreMask, i);
        }
      }
    }

    /** `send_event` */
    method SendEvent(i: int, events: set<int>, ghost woken: set<int>)
      requires 0 <= i < |cores| && Inv(cores, woken)
      modifies this`cores
      ensures Inv(cores, woken) && AllLater(old(cores), cores, -1) && WaitCount(cores) <= WaitCount(old(cores))
      ensures Raised() ==> KeepsLevel(old(cores), cores, fifoEvent)
      ensures cores[i].state == old(cores)[i].state ==> events <= cores[i].status
      ensures Raised() && fifoEvent in events ==> fifoEvent in cores[i].status
      ensures AllGain(old(cores), cores, events, {i}, Raise())
      decreases WaitCount(cores), 1
    {
      cores := cores[i := cores[i].(status := cores[i].status + events)];
      ghost var mid := cores;
      GetsEvents(old(cores), mid, i, events, woken, fifoEvent);
      CheckState(i, woken);
      LaterTransitive(old(cores), mid, cores, -1);
      HasEvents(old(cores), mid, cores, i, events, fifoEvent, Raised());
      StatusGains(old(cores), mid, cores, i, events, Raise());
    }

    /** `put_to_sleep` and `wait_event`: a running core asks to sleep until a masked event is pending, and
        to clear `clear` then. If one is pending already, it goes on after the wake-up delay. */
    method WaitEvent(i: int, state: CoreState, isWait: bool, clear: set<int>)
      requires Settled(cores) && 0 <= i < |cores| && cores[i].active && !cores[i].wakeup && !state.NotWaiting?
      modifies this`cores
      ensures Settled(cores) && |cores| == |old(cores)|
      ensures
        var masked := old(cores)[i].evtMask * old(cores)[i].status;
        if masked != {} then cores[i].active && cores[i].wakeup && cores[i].result == masked && cores[i].clearMask == {}
        else cores == old(cores)[i := old(cores)[i].(state := state, active := false, isWait := isWait, clearMask := clear)]
      ensures
        old(cores)[i].evtMask * old(cores)[i].status != {} ==>
          && cores[i].status <= old(cores)[i].status - clear + Raise()
          && forall c :: 0 <= c < |cores| && c != i ==> GainAt(old(cores)[c], cores[c], Raise())
      ensures Raised() ==> KeepsLevel(old(cores), cores, fifoEvent)
    {
      var core := cores[i].(isWait := isWait, clearMask := clear);
      var masked := core.evtMask * core.status;
      if masked != {} {
        cores := cores[i := core.(result := masked)];
        ghost var before := cores;
        CheckWaitMask(i, {});
        assert LaterAt(before, cores, i, i);
        OthersGain(before, cores, i, Raise());
        cores := cores[i := cores[i].(wakeup := true)];
      } else {
        cores := cores[i := core.(state := state, active := false)];
      }
    }

    /** `wakeup_handler`: the core runs again. */
    method WakeupHandler(i: int)
      requires Settled(cores) && 0 <= i < |cores| && cores[i].wakeup
      modifies this`cores
      ensures Settled(cores) && cores == old(cores)[i := old(cores)[i].(wakeup := false, active := true)]
    {
      cores := cores[i := cores[i].(wakeup := false, active := true)];
      CheckState(i, {});
    }

    /** A write of the event mask, by a store or by setting or clearing bits. */
    method SetEventMask(i: int, mask: set<int>)
      requires Settled(cores) && 0 <= i < |cores|
      modifies this`cores
      ensures Settled(cores) && |cores| == |old(cores)| && cores[i].evtMask == mask
      ensures AllGain(old(cores)[i := old(cores)[i].(evtMask := mask)], cores, {}, {}, Raise())
      ensures Raised() ==> KeepsLevel(old(cores), cores, fifoEvent)
    {
      cores := cores[i := cores[i].(evtMask := mask)];
      ghost var mid := cores;
      CheckState(i, {});
      assert LaterAt(mid, cores, -1, i);
    }

    /** A write of the clear register. */
    method BufferClear(i: int, mask: set<int>)
      requires Settled(cores) && 0 <= i < |cores|
      modifies this`cores
      ensures Settled(cores) && |cores| == |old(cores)|
      ensures Raised() ==> Level(cores, fifoEvent)
      ensures AllGain(Cleared(old(cores), i, mask), cores, {}, {}, Raise()) && cores[i].status * mask <= Raise()
    {
      ClearStatus(i, mask, {});
      ghost var mid := cores;
      CheckState(i, {});
      AllGainTransitive(Cleared(old(cores), i, mask), mid, cores, {}, {}, Raise());
      ClearedStays(old(cores)[i], Cleared(old(cores), i, mask)[i], cores[i], mask, Raise());
    }

    /** `Soc_event_unit::sync`: an event from outside, dropped when the FIFO is full. */
    method SocSync(event: int)
      requires Settled(cores) && FifoOk()
      modifies this
      ensures Settled(cores) && FifoOk() && AllLater(old(cores), cores, -1)
      ensures Contents() == if old(nbFree) == 0 then old(Contents()) else old(Contents()) + [event]
      ensures old(nbFree) > 0 && Raised() ==> Level(cores, fifoEvent)
      ensures AllGain(old(cores), cores, {}, {}, Raise())
    {
      if nbFree == 0 {
        NoGain(cores, {}, {}, Raise());
        forall c | 0 <= c < |cores| ensures LaterAt(cores, cores, -1, c) {
        }
        return;
      }
      ghost var n := |fifo| - nbFree;
      StoredPush(fifo, fifoTail, n, event);
      SlotStep(fifoTail + n, |fifo|);
      nbFree := nbFree - 1;
      fifo := fifo[fifoHead := event];
      fifoHead := fifoHead + 1;
      if fifoHead == |fifo| {
        fifoHead := 0;
      }
      SocCheckState({});
    }

    /** `Soc_event_unit::ioReq`: reads and removes the oldest event, if any. */
    method SocRead() returns (r: Option<int>)
      requires Settled(cores) && FifoOk()
      modifies this
      ensures Settled(cores) && FifoOk() && AllLater(old(cores), cores, -1)
      ensures if old(Contents()) == [] then r == None && Contents() == []
              else r == Some(old(Contents())[0]) && Contents() == old(Contents())[1..]
      ensures old(Contents()) != [] && Raised() ==> Level(cores, fifoEvent)
      ensures AllGain(old(cores), cores, {}, {}, Raise())
    {
      if nbFree == |fifo| {
        NoGain(cores, {}, {}, Raise());
        forall c | 0 <= c < |cores| ensures LaterAt(cores, cores, -1, c) {
        }
        return None;
      }
      StoredPop(fifo, fifoTail, |fifo| - nbFree);
      r := Some(fifo[fifoTail]);
      fifoTail := fifoTail + 1;
      if fifoTail == |fifo| {
        fifoTail := 0;
      }
      nbFree := nbFree + 1;
      SocCheckState({});
    }
  }

  /** Core `c` has been woken, or has all the events it was sent. */
  predicate ReachedAt(before: seq<Core>, after: seq<Core>, events: set<int>, coreMask: set<int>, c: int) {
    0 <= c < |before| && c < |after| && (coreMask == {} || c in coreMask) && after[c].state == before[c].state
    ==> events <= after[c].status
  }

  ghost predicate ReachedTo(before: seq<Core>, after: seq<Core>, events: set<int>, coreMask: set<int>, n: int) {
    forall c :: 0 <= c < n ==> ReachedAt(before, after, events, coreMask, c)
  }

  lemma ReachedMore(a: seq<Core>, b: seq<Core>, c: seq<Core>, events: set<int>, coreMask: set<int>, i: int)
    requires AllLater(a, b, -1) && AllLater(b, c, -1) && ReachedTo(a, b, events, coreMask, i) && 0 <= i < |a|
    requires c[i].state == b[i].state ==> events <= c[i].status
    ensures ReachedTo(a, c, events, coreMask, i + 1)
  {
    forall k | 0 <= k < i + 1 ensures ReachedAt(a, c, events, coreMask, k) {
      assert k < i ==> ReachedAt(a, b, events, coreMask, k);
      assert LaterAt(a, b, -1, k) && LaterAt(b, c, -1, k);
    }
  }

  lemma ReachedSkip(a: seq<Core>, b: seq<Core>, events: set<int>, coreMask: set<int>, i: int)
    requires ReachedTo(a, b, events, coreMask, i) && coreMask != {} && i !in coreMask
    ensures ReachedTo(a, b, events, coreMask, i + 1)
  {
    assert ReachedAt(a, b, events, coreMask, i);
  }

  ghost predicate Reached(before: seq<Core>, after: seq<Core>, events: set<int>, coreMask: set<int>) {
    ReachedTo(before, after, events, coreMask, |before|)
  }

  /** An event reaches every core that sleeps for it: whoever waits for one of the events is woken, and
      its wake-up is scheduled ... */
  lemma EventWakes(before: seq<Core>, after: seq<Core>, events: set<int>, coreMask: set<int>, c: int)
    requires Settled(after) && AllLater(before, after, -1) && Reached(before, after, events, coreMask)
    requires 0 <= c < |before| && before[c].Waits() && (coreMask == {} || c in coreMask) && events * before[c].evtMask != {}
    ensures !after[c].Waits() && !after[c].active && after[c].wakeup
  {
    assert ReachedAt(before, after, events, coreMask, c) && LaterAt(before, after, -1, c);
  }

  /** ... and nobody else: a settled sleeper goes on waiting, unless it can gain an event that its mask
      lets through. */
  lemma OthersSleepOn(before: seq<Core>, after: seq<Core>, events: set<int>, coreMask: set<int>, raise: set<int>, c: int)
    requires Settled(before) && AllGain(before, after, events, coreMask, raise)
    requires 0 <= c < |before| && before[c].Waits() && GainOf(events, coreMask, raise, c) * before[c].evtMask == {}
    ensures after[c] == before[c].(status := after[c].status)
    ensures after[c].status <= before[c].status + GainOf(events, coreMask, raise, c)
  {
    var gain := GainOf(events, coreMask, raise, c);
    assert GainAt(before[c], after[c], gain) && before[c].Quiet();
    assert before[c].evtMask * (before[c].status + gain) == {};
  }

  lemma StopsWaiting(a: seq<Core>, b: seq<Core>, i: int, woken: set<int>)
    requires 0 <= i < |a| && InvBut(a, woken, i) && a[i].Waits() && a[i].status * a[i].evtMask != {}
    requires b == a[i := a[i].(state := NotWaiting,
                               result := if a[i].state.WaitingEvent? && a[i].isWait then a[i].status * a[i].evtMask else a[i].result)]
    ensures i !in woken && Inv(b, woken + {i}) && AllLater(a, b, -1) && WaitCount(b) == WaitCount(a) - 1
  {
    WaitCountUpdate(a, i, b[i]);
  }

  lemma WakeSettles(a: seq<Core>, b: seq<Core>, c: seq<Core>, i: int, woken: set<int>, e: int, raised: bool)
    requires 0 <= i < |a| && a[i].Waits() && |b| == |a| && b == a[i := b[i]]
    requires b[i] == a[i].(state := NotWaiting, result := b[i].result)
    requires AllLater(a, b, -1) && AllLater(b, c, i) && Inv(c, woken + {i}) && (raised ==> KeepsLevel(b, c, e))
    ensures AllLater(a, c, -1) && (raised ==> KeepsLevel(a, c, e))
  {
    LaterWoken(a, b, c, i);
  }

  lemma IsScheduled(a: seq<Core>, b: seq<Core>, c: seq<Core>, i: int, woken: set<int>, e: int, raised: bool)
    requires 0 <= i < |a| && AllLater(a, b, -1) && Inv(b, woken + {i}) && i !in woken
    requires c == b[i := b[i].(wakeup := true)] && (raised ==> KeepsLevel(a, b, e))
    ensures AllLater(a, c, -1) && Inv(c, woken) && WaitCount(c) == WaitCount(b) && (raised ==> KeepsLevel(a, c, e))
  {
    WaitCountUpdate(b, i, c[i]);
    forall k | 0 <= k < |a| ensures LaterAt(a, c, -1, k) {
      assert LaterAt(a, b, -1, k);
    }
  }

  lemma ClearSettles(a: seq<Core>, b: seq<Core>, c: seq<Core>, i: int, woken: set<int>, e: int, raised: bool)
    requires 0 <= i < |a| && AllLater(a, b, i) && Inv(b, woken) && c == b[i := b[i].(clearMask := {})]
    requires raised ==> Level(b, e)
    ensures AllLater(a, c, i) && Inv(c, woken) && WaitCount(c) == WaitCount(b) && (raised ==> KeepsLevel(a, c, e))
  {
    WaitCountUpdate(b, i, c[i]);
    forall k | 0 <= k < |a| ensures LaterAt(a, c, i, k) {
      assert LaterAt(a, b, i, k);
    }
  }

  lemma GetsEvents(a: seq<Core>, b: seq<Core>, i: int, events: set<int>, woken: set<int>, e: int)
    requires 0 <= i < |a| && Inv(a, woken) && b == a[i := a[i].(status := a[i].status + events)]
    ensures InvBut(b, woken, i) && AllLater(a, b, -1) && WaitCount(b) == WaitCount(a) && KeepsLevel(a, b, e)
    ensures events <= b[i].status
  {
    WaitCountUpdate(a, i, b[i]);
  }

  lemma HasEvents(a: seq<Core>, b: seq<Core>, c: seq<Core>, i: int, events: set<int>, e: int, raised: bool)
    requires 0 <= i < |a| && |b| == |a| && b == a[i := a[i].(status := a[i].status + events)] && AllLater(b, c, -1)
    requires KeepsLevel(a, b, e) && (raised ==> KeepsLevel(b, c, e))
    ensures c[i].state == a[i].state ==> events <= c[i].status
    ensures raised ==> KeepsLevel(a, c, e)
    ensures raised && e in events ==> e in c[i].status
  {
    assert LaterAt(b, c, -1, i);
  }

  lemma OthersGain(a: seq<Core>, b: seq<Core>, i: int, raise: set<int>)
    requires 0 <= i < |a| && AllGain(a[i := WaitCleared(a[i])], b, {}, {}, raise)
    ensures b[i].status <= a[i].status - a[i].clearMask + raise
    ensures forall c :: 0 <= c < |a| && c != i ==> GainAt(a[c], b[c], raise)
  {
    forall c | 0 <= c < |a| && c != i ensures GainAt(a[c], b[c], raise) {
      assert GainAt(a[i := WaitCleared(a[i])][c], b[c], GainOf({}, {}, raise, c));
      assert GainOf({}, {}, raise, c) == raise;
    }
    assert GainAt(WaitCleared(a[i]), b[i], GainOf({}, {}, raise, i));
  }

  lemma StatusGains(a: seq<Core>, b: seq<Core>, c: seq<Core>, i: int, events: set<int>, raise: set<int>)
    requires 0 <= i < |a| && b == a[i := a[i].(status := a[i].status + events)] && AllGain(b, c, {}, {}, raise)
    ensures AllGain(a, c, events, {i}, raise)
  {
    AllGainWeaken(b, c, {}, {}, events, {i}, raise);
    forall k | 0 <= k < |a| ensures GainAt(a[k], b[k], GainOf(events, {i}, raise, k)) {
    }
    AllGainTransitive(a, b, c, events, {i}, raise);
  }

  lemma SendGains(a: seq<Core>, b: seq<Core>, c: seq<Core>, i: int, events: set<int>, coreMask: set<int>, raise: set<int>)
    requires AllGain(a, b, events, coreMask, raise) && AllGain(b, c, events, {i}, raise)
    requires coreMask == {} || i in coreMask
    ensures AllGain(a, c, events, coreMask, raise)
  {
    AllGainWeaken(b, c, events, {i}, events, coreMask, raise);
    AllGainTransitive(a, b, c, events, coreMask, raise);
  }

  lemma ClearedStays(a: Core, b: Core, c: Core, mask: set<int>, raise: set<int>)
    requires b == a.(status := a.status - mask) && GainAt(b, c, {} + raise)
    ensures c.status * mask <= raise
  {
  }

  lemma ClearGains(a: seq<Core>, b: seq<Core>, c: seq<Core>, i: int, raise: set<int>)
    requires 0 <= i < |a| && !a[i].Waits() && AllGain(Cleared(a, i, a[i].clearMask), b, {}, {}, raise)
    requires c == b[i := b[i].(clearMask := {})]
    ensures AllGain(a[i := WaitCleared(a[i])], c, {}, {}, raise)
  {
    forall k | 0 <= k < |a| ensures GainAt(a[i := WaitCleared(a[i])][k], c[k], GainOf({}, {}, raise, k)) {
      assert GainAt(Cleared(a, i, a[i].clearMask)[k], b[k], GainOf({}, {}, raise, k));
    }
  }

  lemma WakeGains(a: seq<Core>, b: seq<Core>, c: seq<Core>, d: seq<Core>, i: int, raise: set<int>)
    requires 0 <= i < |a| && a[i].Waits() && a[i].status * a[i].evtMask != {} && |b| == |a|
    requires b == a[i := b[i]] && b[i] == a[i].(state := NotWaiting, result := b[i].result)
    requires AllGain(b[i := WaitCleared(b[i])], c, {}, {}, raise) && d == c[i := c[i].(wakeup := true)]
    ensures AllGain(a, d, {}, {}, raise)
  {
    forall k | 0 <= k < |a| ensures GainAt(a[k], d[k], GainOf({}, {}, raise, k)) {
      assert GainAt(b[i := WaitCleared(b[i])][k], c[k], GainOf({}, {}, raise, k));
      if k == i {
        assert a[i].status * a[i].evtMask <= a[i].evtMask * (a[i].status + raise);
      }
    }
  }
}
