/** The dispatch unit of the cluster event unit (pulp/event_unit/eu_v3_impl.cpp): a ring of values,
    each for the cores of a team, read by every core at its own pace. */
module Dispatch {
  import opened Ring
  import opened Wrappers

  /** `status`: cores that have not passed the entry; `config`: the team; `waiting`: parked cores. */
  datatype Entry = Entry(value: int, status: set<int>, config: set<int>, waiting: set<int>)

  datatype Unit = Unit(entries: seq<Entry>, head: int, config: set<int>, tails: seq<int>) {
    function Size(): int { |entries| }

    /** At most 32 cores, and only cores wait. */
    predicate Valid() {
      && |entries| > 0 && 0 <= head < |entries| && |tails| <= 32
      && (forall c :: 0 <= c < |tails| ==> 0 <= tails[c] < |entries|)
      && forall e :: 0 <= e < |entries| ==> WaitersOk(entries[e])
    }

    predicate WaitersOk(e: Entry) {
      forall c :: c in e.waiting ==> 0 <= c < |tails|
    }
  }

  /** All 32 bits of a mask. */
  const ALL: set<int> := set i | 0 <= i < 32

  /** The core passes its current entry. */
  function Passed(u: Unit, c: int): Unit
    requires u.Valid() && 0 <= c < |u.tails|
  {
    var e := u.tails[c];
    u.(entries := u.entries[e := u.entries[e].(status := u.entries[e].status - {c})],
       tails := u.tails[c := Wrap(e, u.Size())])
  }

  function Parked(u: Unit, c: int, e: int): Unit
    requires u.Valid() && 0 <= c < |u.tails| && 0 <= e < u.Size()
  {
    u.(entries := u.entries[e := u.entries[e].(waiting := u.entries[e].waiting + {c})])
  }

  /** The entry at the core's tail is ready, but for other cores. */
  predicate Foreign(u: Unit, c: int)
    requires u.Valid() && 0 <= c < |u.tails|
  {
    c in u.entries[u.tails[c]].status && c !in u.entries[u.tails[c]].config
  }

  /** How many entries are ready for a core. */
  function ReadyCount(entries: seq<Entry>, c: int): nat {
    if entries == [] then 0
    else ReadyCount(entries[..|entries| - 1], c) + if c in entries[|entries| - 1].status then 1 else 0
  }

  lemma {:induction false} ReadyCountClear(entries: seq<Entry>, e: int, c: int, n: Entry)
    requires 0 <= e < |entries| && c in entries[e].status && c !in n.status
    ensures ReadyCount(entries[e := n], c) == ReadyCount(entries, c) - 1
    decreases |entries|
  {
    var k := |entries| - 1;
    if e < k {
      ReadyCountClear(entries[..k], e, c, n);
      assert entries[e := n][..k] == entries[..k][e := n];
    } else {
      assert entries[e := n][..k] == entries[..k];
    }
  }

  /** Skips the entries that are ready but not for this core. */
  function Skip(u: Unit, c: int): (r: Unit)
    requires u.Valid() && 0 <= c < |u.tails|
    ensures r.Valid() && |r.tails| == |u.tails| && !Foreign(r, c)
    decreases ReadyCount(u.entries, c)
  {
    if Foreign(u, c) then
      var e := u.tails[c];
      ReadyCountClear(u.entries, e, c, u.entries[e].(status := u.entries[e].status - {c}));
      Skip(Passed(u, c), c)
    else u
  }

  /** What a read returns: a value, or None when the core is put to sleep. */
  function ReadValue(u: Unit, c: int): Option<int>
    requires u.Valid() && 0 <= c < |u.tails|
  {
    var s := Skip(u, c);
    var e := s.entries[s.tails[c]];
    if c in e.status then Some(e.value) else None
  }

  function AfterRead(u: Unit, c: int): Unit
    requires u.Valid() && 0 <= c < |u.tails|
  {
    var s := Skip(u, c);
    if ReadValue(u, c).Some? then Passed(s, c) else Parked(s, c, s.tails[c])
  }

  /** The cores parked on the entry that is pushed next. */
  function Waiters(u: Unit): set<int>
    requires u.Valid()
  {
    u.entries[u.head].waiting
  }

  /** A push wakes the parked cores of the team, with the value, and parks the others on the next
      entry; every other core finds the entry ready. The loop visits the cores `below` only. */
  ghost predicate Pushing(u: Unit, v: int, below: int, t: Unit)
    requires u.Valid()
  {
    && |t.entries| == |u.entries| && |t.tails| == |u.tails| && t.config == u.config && t.head == Wrap(u.head, u.Size())
    && (forall c :: 0 <= c < |u.tails| ==>
          t.tails[c] == if c in Waiters(u) && c < below then Wrap(u.tails[c], u.Size()) else u.tails[c])
    && forall e :: 0 <= e < |u.entries| ==> PushedEntry(u, v, below, t, e)
  }

  ghost predicate PushedEntry(u: Unit, v: int, below: int, t: Unit, e: int)
    requires u.Valid() && |t.entries| == |u.entries| && |t.tails| == |u.tails| && 0 <= e < |u.entries|
  {
    && t.entries[e].value == (if e == u.head then v else u.entries[e].value)
    && t.entries[e].config == (if e == u.head then u.config else u.entries[e].config)
    && (forall c :: c in t.entries[e].status <==>
          if e == u.head then 0 <= c < 32 && !(c in Waiters(u) && c < below) else c in u.entries[e].status)
    && forall c :: c in t.entries[e].waiting <==>
         || (c in u.entries[e].waiting && !(e == u.head && c < below))
         || (c in Waiters(u) && c < below && c !in u.config && e == Wrap(u.tails[c], u.Size()))
  }

  /** `Dispatch_unit` */
  class DispatchUnit {
    var entries: seq<Entry>
    var fifoHead: int
    var config: set<int>
    var tails: seq<int>

    function View(): Unit
      reads this
    {
      Unit(entries, fifoHead, config, tails)
    }

    constructor (size: int, nbCore: int)
      requires size > 0 && 0 <= nbCore <= 32
      ensures View() == Unit(seq(size, _ => Entry(0, {}, {}, {})), 0, {}, seq(nbCore, _ => 0)) && View().Valid()
    {
      entries := seq(size, _ => Entry(0, {}, {}, {}));
      tails := seq(nbCore, _ => 0);
      fifoHead, config := 0, {};
    }

    method SetTeam(mask: set<int>)
      requires View().Valid()
      modifies this`config
      ensures View() == old(View()).(config := mask) && View().Valid()
    {
      config := mask;
    }

    /** The core passes the entry at its tail. */
    method Pass(c: int)
      requires View().Valid() && 0 <= c < |tails|
      modifies this`entries, this`tails
      ensures View() == Passed(old(View()), c) && View().Valid()
    {
      var e := tails[c];
      entries := entries[e := entries[e].(status := entries[e].status - {c})];
      tails := tails[c := tails[c] + 1];
      if tails[c] == |entries| {
        tails := tails[c := 0];
      }
    }

    /** A read of `EU_DISPATCH_FIFO_ACCESS`. */
    method Read(c: int) returns (r: Option<int>)
      requires View().Valid() && 0 <= c < |tails|
      modifies this
      ensures View() == AfterRead(old(View()), c) && View().Valid()
      ensures r == ReadValue(old(View()), c)
    {
      while c in entries[tails[c]].status && c !in entries[tails[c]].config
        invariant View().Valid() && |tails| == |old(tails)| && Skip(View(), c) == Skip(old(View()), c)
        decreases ReadyCount(entries, c)
      {
        var e := tails[c];
        ReadyCountClear(entries, e, c, entries[e].(status := entries[e].status - {c}));
        Pass(c);
      }
      if c in entries[tails[c]].status {
        r := Some(entries[tails[c]].value);
        Pass(c);
      } else {
        r := None;
        entries := entries[tails[c] := entries[tails[c]].(waiting := entries[tails[c]].waiting + {c})];
      }
    }

    /** A parked core passes the entry just pushed: it gets the value, or waits at the next entry. */
    method Serve(i: int, id: int) returns (named: bool)
      requires 0 <= id < |entries| && 0 <= i < |tails| && 0 <= tails[i] < |entries|
      modifies this`entries, this`tails
      ensures View() == PushTurn(old(View()), id, i) && named == (i in old(entries)[id].config)
    {
      entries := entries[id := entries[id].(status := entries[id].status - {i}, waiting := entries[id].waiting - {i})];
      tails := tails[i := tails[i] + 1];
      if tails[i] == |entries| {
        tails := tails[i := 0];
      }
      named := i in entries[id].config;
      if !named {
        var next := tails[i];
        entries := entries[next := entries[next].(waiting := entries[next].waiting + {i})];
      }
    }

    /** A write of `EU_DISPATCH_FIFO_ACCESS`; `woken` are the cores that get the value now. */
    method Push(v: int) returns (woken: set<int>)
      requires View().Valid()
      modifies this
      ensures View().Valid() && Pushing(old(View()), v, 32, View())
      ensures woken == Waiters(old(View())) * old(config)
    {
      ghost var u := View();
      var id := fifoHead;
      fifoHead := fifoHead + 1;
      if fifoHead == |entries| {
        fifoHead := 0;
      }
      entries := entries[id := entries[id].(config := config, value := v, status := ALL)];
      var mask := entries[id].waiting;
      woken := {};
      for i := 0 to 32
        invariant Pushing(u, v, i, View()) && mask == Waiters(u)
        invariant woken == set c | c in Waiters(u) && c < i && c in u.config
      {
        ghost var t := View();
        assert PushedEntry(u, v, i, t, id);
        if i in mask {
          var named := Serve(i, id);
          woken := woken + if named then {i} else {};
        }
        PushOne(u, v, i, t, View());
      }
      PushedIsValid(u, v, View());
    }
  }

  /** One turn of the push loop. */
  function PushTurn(t: Unit, id: int, i: int): Unit
    requires 0 <= id < |t.entries| && 0 <= i < |t.tails| && 0 <= t.tails[i] < |t.entries|
  {
    var next := Wrap(t.tails[i], |t.entries|);
    var entries := t.entries[id := t.entries[id].(status := t.entries[id].status - {i}, waiting := t.entries[id].waiting - {i})];
    t.(tails := t.tails[i := next],
       entries := if i in entries[id].config then entries
                  else entries[next := entries[next].(waiting := entries[next].waiting + {i})])
  }

  lemma PushOne(u: Unit, v: int, i: int, t: Unit, w: Unit)
    requires u.Valid() && 0 <= i < 32 && Pushing(u, v, i, t)
    requires i in Waiters(u) ==> i < |t.tails|
    requires w == if i in Waiters(u) then PushTurn(t, u.head, i) else t
    ensures Pushing(u, v, i + 1, w)
  {
    var next := i + 1;
    forall e | 0 <= e < |u.entries| ensures PushedEntry(u, v, next, w, e) {
      assert PushedEntry(u, v, i, t, e) && PushedEntry(u, v, i, t, u.head);
    }
  }

  lemma PushedIsValid(u: Unit, v: int, t: Unit)
    requires u.Valid() && Pushing(u, v, 32, t)
    ensures t.Valid()
  {
    forall e | 0 <= e < |t.entries| ensures t.WaitersOk(t.entries[e]) {
      assert PushedEntry(u, v, 32, t, e) && u.WaitersOk(u.entries[e]) && u.WaitersOk(u.entries[u.head]);
    }
  }
}
