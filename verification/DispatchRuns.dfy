/** The dispatch ring refines an unbounded log: every core receives exactly the values pushed for its
    team, in order, as long as it lags the pusher by at most the size of the ring. */
module DispatchRuns {
  import opened Ring
  import opened Wrappers
  import opened Dispatch

  /** A unit with the log of pushes (value and team) and, per core, how many of them it has passed,
      what it received, and whether it is parked. */
  datatype Run = Run(u: Unit, log: seq<(int, set<int>)>, pos: seq<int>, got: seq<seq<int>>, parked: seq<bool>) {
    predicate Shaped() {
      u.Valid() && |pos| == |u.tails| && |got| == |u.tails| && |parked| == |u.tails|
    }
  }

  /** The first `n` pushed values whose team names the core. */
  function Named(log: seq<(int, set<int>)>, c: int, n: int): seq<int>
    requires 0 <= n <= |log|
  {
    if n == 0 then []
    else Named(log, c, n - 1) + if c in log[n - 1].1 then [log[n - 1].0] else []
  }

  lemma {:induction false} NamedOfPrefix(log: seq<(int, set<int>)>, p: (int, set<int>), c: int, n: int)
    requires 0 <= n <= |log|
    ensures Named(log + [p], c, n) == Named(log, c, n)
  {
    if n > 0 {
      NamedOfPrefix(log, p, c, n - 1);
    }
  }

  /** The last pushes, one ring of them, are in the entries. */
  ghost predicate RingOk(r: Run)
    requires r.u.Valid()
  {
    && r.u.head == Slot(|r.log|, r.u.Size())
    && forall j :: 0 <= j < |r.log| && |r.log| - r.u.Size() <= j ==> InRing(r, j)
  }

  predicate InRing(r: Run, j: int)
    requires r.u.Valid() && 0 <= j < |r.log|
  {
    var e := Slot(j, r.u.Size());
    0 <= e < r.u.Size() && r.u.entries[e].value == r.log[j].0 && r.u.entries[e].config == r.log[j].1
  }

  /** Core `c` has passed `pos` pushes: its ready bits are exactly the unread segment of the ring, it
      waits, if parked, at its tail with nothing unread, and it received what was pushed for it. */
  ghost predicate CoreOk(r: Run, c: int)
    requires r.Shaped() && 0 <= c < |r.pos|
  {
    && 0 <= r.pos[c] <= |r.log| && |r.log| - r.pos[c] <= r.u.Size()
    && r.u.tails[c] == Slot(r.pos[c], r.u.Size())
    && (forall k :: 0 <= k < r.u.Size() ==> ReadyAt(r, c, k))
    && (forall e :: 0 <= e < r.u.Size() ==> (c in r.u.entries[e].waiting <==> r.parked[c] && e == r.u.tails[c]))
    && (r.parked[c] ==> r.pos[c] == |r.log|)
    && r.got[c] == Named(r.log, c, r.pos[c])
  }

  predicate ReadyAt(r: Run, c: int, k: int)
    requires r.Shaped() && 0 <= c < |r.pos|
  {
    var e := Slot(r.pos[c] + k, r.u.Size());
    0 <= e < r.u.Size() && (c in r.u.entries[e].status <==> k < |r.log| - r.pos[c])
  }

  /** Core `c` passes one unread entry, and receives its value if the team names it. */
  function PassedRun(r: Run, c: int): Run
    requires r.Shaped() && 0 <= c < |r.pos|
  {
    var e := r.u.entries[r.u.tails[c]];
    r.(u := Passed(r.u, c), pos := r.pos[c := r.pos[c] + 1],
       got := if c in e.config then r.got[c := r.got[c] + [e.value]] else r.got)
  }

  lemma PassKeepsCore(r: Run, c: int)
    requires r.Shaped() && RingOk(r) && 0 <= c < |r.pos| && CoreOk(r, c) && c in r.u.entries[r.u.tails[c]].status
    ensures CoreOk(PassedRun(r, c), c) && r.pos[c] < |r.log| && !r.parked[c]
  {
    var t, size, p := PassedRun(r, c), r.u.Size(), r.pos[c];
    assert ReadyAt(r, c, 0);
    SlotStep(p, size);
    assert InRing(r, p);
    forall k | 0 <= k < size ensures ReadyAt(t, c, k) {
      SlotStep(p + 1 + k, size);
      if k == size - 1 {
        assert p + 1 + k == p + size;
      } else {
        assert ReadyAt(r, c, k + 1);
        SlotsDiffer(p, p + 1 + k, size);
      }
    }
  }

  lemma PassKeepsOthers(r: Run, c: int, d: int)
    requires r.Shaped() && 0 <= c < |r.pos| && 0 <= d < |r.pos| && d != c && CoreOk(r, d)
    ensures CoreOk(PassedRun(r, c), d)
  {
    var t := PassedRun(r, c);
    forall k | 0 <= k < r.u.Size() ensures ReadyAt(t, d, k) {
      assert ReadyAt(r, d, k);
    }
  }

  lemma PassKeepsRing(r: Run, c: int)
    requires r.Shaped() && RingOk(r) && 0 <= c < |r.pos|
    ensures RingOk(PassedRun(r, c))
  {
    var t := PassedRun(r, c);
    forall j | 0 <= j < |r.log| && |r.log| - r.u.Size() <= j ensures InRing(t, j) {
      assert InRing(r, j);
    }
  }

  /** The tracked cores: those that have never lagged by more than a ring. */
  ghost predicate Inv(r: Run, tracked: set<int>) {
    && r.Shaped() && RingOk(r)
    && forall c :: c in tracked ==> 0 <= c < |r.pos| && CoreOk(r, c)
  }

  lemma PassKeeps(r: Run, tracked: set<int>, c: int)
    requires Inv(r, tracked) && 0 <= c < |r.pos| && (c in tracked ==> c in r.u.entries[r.u.tails[c]].status)
    ensures Inv(PassedRun(r, c), tracked)
  {
    PassKeepsRing(r, c);
    if c in tracked {
      PassKeepsCore(r, c);
    }
    forall d | d in tracked ensures CoreOk(PassedRun(r, c), d) {
      if d != c {
        PassKeepsOthers(r, c, d);
      }
    }
  }

  /** The bypass loop of a read. */
  function SkipRun(r: Run, c: int): (t: Run)
    requires r.Shaped() && 0 <= c < |r.pos|
    ensures t.u == Skip(r.u, c) && t.log == r.log && t.parked == r.parked && t.Shaped() && |t.pos| == |r.pos|
    decreases ReadyCount(r.u.entries, c)
  {
    if Foreign(r.u, c) then
      var e := r.u.tails[c];
      ReadyCountClear(r.u.entries, e, c, r.u.entries[e].(status := r.u.entries[e].status - {c}));
      SkipRun(PassedRun(r, c), c)
    else r
  }

  lemma {:induction false} SkipKeeps(r: Run, tracked: set<int>, c: int)
    requires Inv(r, tracked) && 0 <= c < |r.pos|
    ensures Inv(SkipRun(r, c), tracked) && SkipRun(r, c).got == r.got
    decreases ReadyCount(r.u.entries, c)
  {
    if Foreign(r.u, c) {
      var e := r.u.tails[c];
      ReadyCountClear(r.u.entries, e, c, r.u.entries[e].(status := r.u.entries[e].status - {c}));
      PassKeeps(r, tracked, c);
      SkipKeeps(PassedRun(r, c), tracked, c);
    }
  }

  /** A read of core `c`: the bypass loop, then a value or sleep. */
  function ReadRun(r: Run, c: int): Run
    requires r.Shaped() && 0 <= c < |r.pos|
  {
    var s := SkipRun(r, c);
    if ReadValue(r.u, c).Some? then PassedRun(s, c)
    else s.(u := Parked(s.u, c, s.u.tails[c]), parked := s.parked[c := true])
  }

  lemma ParkKeeps(r: Run, tracked: set<int>, c: int)
    requires Inv(r, tracked) && 0 <= c < |r.pos| && c !in r.u.entries[r.u.tails[c]].status
    ensures Inv(r.(u := Parked(r.u, c, r.u.tails[c]), parked := r.parked[c := true]), tracked)
    ensures c in tracked ==> r.pos[c] == |r.log|
  {
    var t := r.(u := Parked(r.u, c, r.u.tails[c]), parked := r.parked[c := true]);
    assert c in tracked ==> ReadyAt(r, c, 0);
    forall j | 0 <= j < |r.log| && |r.log| - r.u.Size() <= j ensures InRing(t, j) {
      assert InRing(r, j);
    }
    forall d | d in tracked ensures 0 <= d < |t.pos| && CoreOk(t, d) {
      assert CoreOk(r, d);
      forall k | 0 <= k < r.u.Size() ensures ReadyAt(t, d, k) {
        assert ReadyAt(r, d, k);
      }
    }
  }

  /** A read returns the next value pushed for the core, or, when it has them all, parks it. A read of
      any other core, overtaken or not, changes nothing for the tracked ones. */
  lemma ReadKeeps(r: Run, tracked: set<int>, c: int)
    requires Inv(r, tracked) && 0 <= c < |r.pos| && !r.parked[c]
    ensures Inv(ReadRun(r, c), tracked) && ReadRun(r, c).u == AfterRead(r.u, c)
    ensures c in tracked ==>
      var v := ReadValue(r.u, c);
      if v.Some? then ReadRun(r, c).got[c] == r.got[c] + [v.value]
      else ReadRun(r, c).got[c] == r.got[c] == Named(r.log, c, |r.log|)
  {
    SkipKeeps(r, tracked, c);
    var s := SkipRun(r, c);
    if ReadValue(r.u, c).Some? {
      PassKeeps(s, tracked, c);
    } else {
      ParkKeeps(s, tracked, c);
      assert c in tracked ==> CoreOk(s, c);
    }
  }

  /** A push, with the values the parked cores of the team receive by waking up. */
  ghost predicate PushRun(r: Run, v: int, t: Run)
    requires r.Shaped()
  {
    && t.Shaped() && Pushing(r.u, v, 32, t.u) && t.log == r.log + [(v, r.u.config)] && |t.pos| == |r.pos|
    && forall c :: 0 <= c < |r.pos| ==>
         var wakes := c in Waiters(r.u) && c in r.u.config;
         && t.pos[c] == r.pos[c] + (if c in Waiters(r.u) then 1 else 0)
         && t.got[c] == r.got[c] + (if wakes then [v] else [])
         && t.parked[c] == (r.parked[c] && !wakes)
  }

  /** The pusher never gets more than a ring ahead of a tracked core. */
  ghost predicate MayPush(r: Run, tracked: set<int>)
    requires r.Shaped()
  {
    forall c :: c in tracked ==> 0 <= c < |r.pos| && (|r.log| - r.pos[c] < r.u.Size() || r.parked[c])
  }

  lemma PushKeepsRing(r: Run, v: int, t: Run)
    requires r.Shaped() && RingOk(r) && PushRun(r, v, t)
    ensures RingOk(t)
  {
    var size := r.u.Size();
    SlotStep(|r.log|, size);
    forall j | 0 <= j < |t.log| && |t.log| - size <= j ensures InRing(t, j) {
      SlotStep(j, size);
      assert PushedEntry(r.u, v, 32, t.u, Slot(j, size));
      if j < |r.log| {
        assert InRing(r, j);
        SlotsDiffer(j, |r.log|, size);
      }
    }
  }

  lemma PushKeepsReady(r: Run, v: int, t: Run, c: int, k: int)
    requires r.Shaped() && RingOk(r) && PushRun(r, v, t) && 0 <= c < |r.pos| && CoreOk(r, c) && 0 <= k < r.u.Size()
    requires |r.log| - r.pos[c] < r.u.Size() || r.parked[c]
    requires c in Waiters(r.u) <==> r.parked[c]
    ensures ReadyAt(t, c, k)
  {
    var size := r.u.Size();
    var j := t.pos[c] + k;
    SlotStep(j, size);
    assert PushedEntry(r.u, v, 32, t.u, Slot(j, size));
    if r.parked[c] {
      if k < size - 1 {
        assert ReadyAt(r, c, k + 1);
      } else {
        SlotStep(r.pos[c], size);
      }
    } else {
      assert ReadyAt(r, c, k);
      if j < |r.log| {
        SlotsDiffer(j, |r.log|, size);
      } else if j > |r.log| {
        SlotsDiffer(|r.log|, j, size);
      }
    }
  }

  lemma PushKeepsCore(r: Run, v: int, t: Run, c: int)
    requires r.Shaped() && RingOk(r) && PushRun(r, v, t) && 0 <= c < |r.pos| && CoreOk(r, c)
    requires |r.log| - r.pos[c] < r.u.Size() || r.parked[c]
    ensures CoreOk(t, c)
  {
    var size := r.u.Size();
    SlotStep(r.pos[c], size);
    SlotStep(|r.log|, size);
    assert c in Waiters(r.u) <==> r.parked[c];
    forall k | 0 <= k < size ensures ReadyAt(t, c, k) {
      PushKeepsReady(r, v, t, c, k);
    }
    forall e | 0 <= e < size ensures c in t.u.entries[e].waiting <==> t.parked[c] && e == t.u.tails[c] {
      assert PushedEntry(r.u, v, 32, t.u, e);
    }
    NamedOfPrefix(r.log, (v, r.u.config), c, r.pos[c]);
  }

  lemma PushKeeps(r: Run, tracked: set<int>, v: int, t: Run)
    requires Inv(r, tracked) && MayPush(r, tracked) && PushRun(r, v, t)
    ensures Inv(t, tracked)
  {
    PushKeepsRing(r, v, t);
    forall c | c in tracked ensures 0 <= c < |t.pos| && CoreOk(t, c) {
      PushKeepsCore(r, v, t, c);
    }
  }

  datatype Event = Push(v: int) | Read(c: int) | Team(mask: set<int>)

  ghost predicate Step(r: Run, tracked: set<int>, e: Event, t: Run)
    requires r.Shaped()
  {
    match e
    case Push(v) => MayPush(r, tracked) && PushRun(r, v, t)
    case Read(c) => 0 <= c < |r.pos| && !r.parked[c] && t == ReadRun(r, c)
    case Team(mask) => t == r.(u := r.u.(config := mask))
  }

  ghost predicate StepAt(runs: seq<Run>, tracked: set<int>, events: seq<Event>, k: int)
    requires 0 <= k < |events| && |runs| == |events| + 1
  {
    runs[k].Shaped() && Step(runs[k], tracked, events[k], runs[k + 1])
  }

  function Start(size: nat, n: nat): Run {
    Run(Unit(seq(size, _ => Entry(0, {}, {}, {})), 0, {}, seq(n, _ => 0)), [], seq(n, _ => 0), seq(n, _ => []), seq(n, _ => false))
  }

  /** In every run in which the pusher keeps within a ring of the tracked cores, each of them has
      received exactly the values pushed for it so far as it has read, in push order. */
  lemma {:induction false} RingRefinesLog(size: nat, n: nat, runs: seq<Run>, tracked: set<int>, events: seq<Event>, k: nat)
    requires size > 0 && n <= 32 && (forall c :: c in tracked ==> 0 <= c < n)
    requires |runs| == |events| + 1 && runs[0] == Start(size, n) && k < |runs|
    requires forall j :: 0 <= j < |events| ==> StepAt(runs, tracked, events, j)
    ensures Inv(runs[k], tracked)
    ensures forall c :: c in tracked ==>
      0 <= c < |runs[k].pos| && 0 <= runs[k].pos[c] <= |runs[k].log| && runs[k].got[c] == Named(runs[k].log, c, runs[k].pos[c])
  {
    if k == 0 {
    } else {
      RingRefinesLog(size, n, runs, tracked, events, k - 1);
      assert StepAt(runs, tracked, events, k - 1);
      match events[k - 1]
      case Push(v) => PushKeeps(runs[k - 1], tracked, v, runs[k]);
      case Read(c) => ReadKeeps(runs[k - 1], tracked, c);
      case Team(mask) => TeamKeeps(runs[k - 1], tracked, mask);
    }
    forall c | c in tracked
      ensures 0 <= c < |runs[k].pos| && 0 <= runs[k].pos[c] <= |runs[k].log| && runs[k].got[c] == Named(runs[k].log, c, runs[k].pos[c])
    {
      assert CoreOk(runs[k], c);
    }
  }

  lemma TeamKeeps(r: Run, tracked: set<int>, mask: set<int>)
    requires Inv(r, tracked)
    ensures Inv(r.(u := r.u.(config := mask)), tracked)
  {
    var t := r.(u := r.u.(config := mask));
    forall e | 0 <= e < t.u.Size() ensures t.u.WaitersOk(t.u.entries[e]) {
      assert r.u.WaitersOk(r.u.entries[e]);
    }
    forall j | 0 <= j < |r.log| && |r.log| - r.u.Size() <= j ensures InRing(t, j) {
      assert InRing(r, j);
    }
    forall c | c in tracked ensures 0 <= c < |t.pos| && CoreOk(t, c) {
      forall k | 0 <= k < r.u.Size() ensures ReadyAt(t, c, k) {
        assert ReadyAt(r, c, k);
      }
    }
  }
}
