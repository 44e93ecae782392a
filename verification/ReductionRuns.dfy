/** Runs of write contributions (pulp/floonoc_flex/floonoc_flex.cpp) of many nodes to many addresses, in any
    interleaving: what is committed for each key. */
module ReductionRuns {
  import opened Wrappers
  import opened Reductions
  import opened Multicast

  datatype Event = Event(key: Key, c: Contribution)

  /** Contribution after contribution, with the pending groups in between and what was committed. */
  datatype Run = Run(events: seq<Event>, pending: seq<seq<Group>>, done: seq<Option<Group>>)

  ghost predicate StepAt(policy: MeshPolicy, size: int, run: Run, i: int)
    requires 0 <= i < |run.events| == |run.done| && |run.pending| == |run.events| + 1
  {
    var e := run.events[i];
    && DataOk(e.key.op, e.c.data, size)
    && Contributed(run.pending[i], e.key, e.c, policy.MemberCount(e.c.node, e.key.mask), run.pending[i + 1], run.done[i])
  }

  ghost predicate IsRun(policy: MeshPolicy, size: int, run: Run) {
    && |run.done| == |run.events| && |run.pending| == |run.events| + 1 && run.pending[0] == []
    && forall i :: 0 <= i < |run.events| ==> StepAt(policy, size, run, i)
  }

  /** The contributions to one key among the first `n`, in order of arrival. */
  function OfKey(events: seq<Event>, key: Key, n: nat): seq<Contribution>
    requires n <= |events|
  {
    if n == 0 then []
    else OfKey(events, key, n - 1) + if events[n - 1].key == key then [events[n - 1].c] else []
  }

  /** The data committed for one key by then. */
  function Committed(run: Run, key: Key, n: nat): seq<Data>
    requires n <= |run.events| == |run.done|
  {
    if n == 0 then []
    else Committed(run, key, n - 1)
         + if run.events[n - 1].key == key && run.done[n - 1].Some? then [run.done[n - 1].value.data] else []
  }

  /** Contributions number `k * m` up to `(k + 1) * m`. */
  function Round(cs: seq<Contribution>, m: nat, k: nat): seq<Contribution>
    requires k * m + m <= |cs|
  {
    cs[k * m..k * m + m]
  }

  /** `d` is the reduction of round `k`. */
  ghost predicate RoundIs(op: Op, size: int, cs: seq<Contribution>, m: nat, k: nat, d: Data) {
    && m > 0 && k * m + m <= |cs| && AllOk(op, DataOf(Round(cs, m, k)), size)
    && d == Fold(op, DataOf(Round(cs, m, k)), size)
  }

  /** The data committed are the reductions of the first rounds, in order. */
  ghost predicate RoundsAre(op: Op, size: int, cs: seq<Contribution>, m: nat, committed: seq<Data>) {
    forall k :: 0 <= k < |committed| ==> RoundIs(op, size, cs, m, k, committed[k])
  }

  lemma RoundGrows(op: Op, size: int, cs: seq<Contribution>, m: nat, k: nat, d: Data, c: Contribution)
    requires RoundIs(op, size, cs, m, k, d)
    ensures RoundIs(op, size, cs + [c], m, k, d)
  {
    assert Round(cs + [c], m, k) == Round(cs, m, k);
  }

  /** What the first `n` contributions leave behind for a key: the full rounds are committed, and the
      group holds the contributions after them. */
  ghost predicate KeyOk(size: int, run: Run, key: Key, m: int, n: nat)
    requires n <= |run.events| == |run.done| && |run.pending| == |run.events| + 1
  {
    m > 0 && KeyHolds(size, OfKey(run.events, key, n), Committed(run, key, n), Lookup(run.pending[n], key), key, m)
  }

  ghost predicate KeyHolds(size: int, cs: seq<Contribution>, committed: seq<Data>, g: Option<Group>, key: Key, m: nat) {
    var full := |committed| * m;
    && full <= |cs| < full + m
    && RoundsAre(key.op, size, cs, m, committed)
    && (g.None? <==> |cs| == full)
    && (g.Some? ==> g.value.key == key && g.value.expected == m && Collecting(g.value, size) && All(g.value) == cs[full..])
  }

  lemma RoundsGrow(op: Op, size: int, cs: seq<Contribution>, committed: seq<Data>, m: nat, c: Contribution)
    requires RoundsAre(op, size, cs, m, committed)
    ensures RoundsAre(op, size, cs + [c], m, committed)
  {
    forall k | 0 <= k < |committed| ensures RoundIs(op, size, cs + [c], m, k, committed[k]) {
      RoundGrows(op, size, cs, m, k, committed[k], c);
    }
  }

  /** The last round is complete. */
  lemma RoundCompletes(size: int, cs: seq<Contribution>, committed: seq<Data>, g: Group, key: Key, m: nat, full: nat)
    requires m > 0 && g.key == key && Collecting(g, size) && full == |committed| * m && |cs| == full + m
    requires All(g) == cs[full..] && RoundsAre(key.op, size, cs, m, committed)
    ensures KeyHolds(size, cs, committed + [g.data], None, key, m)
  {
    var q, after := |committed|, committed + [g.data];
    assert Round(cs, m, q) == All(g);
    assert RoundIs(key.op, size, cs, m, q, g.data);
    assert |after| * m == full + m;
    forall k | 0 <= k < |after| ensures RoundIs(key.op, size, cs, m, k, after[k]) {
      assert k < q ==> after[k] == committed[k];
    }
  }

  /** The last round goes on. */
  lemma RoundGoesOn(size: int, cs: seq<Contribution>, committed: seq<Data>, g: Group, key: Key, m: nat, full: nat)
    requires m > 0 && g.key == key && g.expected == m && Collecting(g, size) && full == |committed| * m
    requires full < |cs| < full + m && All(g) == cs[full..]
    requires RoundsAre(key.op, size, cs, m, committed)
    ensures KeyHolds(size, cs, committed, Some(g), key, m)
  {
  }

  /** The group after one more contribution `c` holds those after the full rounds. */
  lemma JoinedIs(size: int, rest: seq<Contribution>, before: Option<Group>, key: Key, m: nat, c: Contribution)
    requires DataOk(key.op, c.data, size) && (before.None? <==> rest == [])
    requires before.Some? ==>
      before.value.key == key && before.value.expected == m && Collecting(before.value, size) && All(before.value) == rest
    ensures before.Some? ==> |before.value.data| == |c.data|
    ensures
      var g := Joined(before, key, c, m);
      g.key == key && g.expected == m && Collecting(g, size) && All(g) == rest + [c] && g.received == |rest| + 1
  {
    JoinedCollects(before, key, c, m, size);
  }

  /** One more contribution to the key. */
  lemma KeyContributes(size: int, cs: seq<Contribution>, committed: seq<Data>, before: Option<Group>, key: Key, m: nat,
                       c: Contribution)
    requires m > 0 && KeyHolds(size, cs, committed, before, key, m) && DataOk(key.op, c.data, size)
    ensures before.Some? ==> |before.value.data| == |c.data|
    ensures
      var g := Joined(before, key, c, m);
      if g.received < g.expected then KeyHolds(size, cs + [c], committed, Some(g), key, m)
      else KeyHolds(size, cs + [c], committed + [g.data], None, key, m)
  {
    var full: nat := |committed| * m;
    JoinedIs(size, cs[full..], before, key, m, c);
    assert (cs + [c])[full..] == cs[full..] + [c];
    RoundsGrow(key.op, size, cs, committed, m, c);
    var g := Joined(before, key, c, m);
    if g.received >= g.expected {
      RoundCompletes(size, cs + [c], committed, g, key, m, full);
    } else {
      RoundGoesOn(size, cs + [c], committed, g, key, m, full);
    }
  }

  lemma OwnKey(size: int, run: Run, key: Key, m: int, n: nat)
    requires n < |run.events| == |run.done| && |run.pending| == |run.events| + 1 && run.events[n].key == key
    requires DataOk(key.op, run.events[n].c.data, size) && KeyOk(size, run, key, m, n)
    requires Contributed(run.pending[n], key, run.events[n].c, m, run.pending[n + 1], run.done[n])
    ensures KeyOk(size, run, key, m, n + 1)
  {
    var cs, committed, c := OfKey(run.events, key, n), Committed(run, key, n), run.events[n].c;
    KeyContributes(size, cs, committed, Lookup(run.pending[n], key), key, m, c);
    assert OfKey(run.events, key, n + 1) == cs + [c];
    assert Committed(run, key, n + 1) == committed + if run.done[n].Some? then [run.done[n].value.data] else [];
    assert committed + [] == committed;
  }

  /** A contribution to another key changes nothing. */
  lemma OtherKey(size: int, run: Run, key: Key, m: int, n: nat, count: int)
    requires n < |run.events| == |run.done| && |run.pending| == |run.events| + 1
    requires run.events[n].key != key && KeyOk(size, run, key, m, n)
    requires Contributed(run.pending[n], run.events[n].key, run.events[n].c, count, run.pending[n + 1], run.done[n])
    ensures KeyOk(size, run, key, m, n + 1)
  {
    assert OfKey(run.events, key, n + 1) == OfKey(run.events, key, n);
    assert Committed(run, key, n + 1) == Committed(run, key, n);
  }

  /** `d` is the sum, the maximum or the AND of round `k`, lane by lane; a round of one contribution
      passes the AND unchanged. */
  ghost predicate RoundReduces(op: Op, size: int, cs: seq<Contribution>, m: nat, k: nat, d: Data) {
    && k * m + m <= |cs|
    && if op.LsbAnd? && m == 1 then Round(cs, m, k)[0].data == d else Reduces(op, DataOf(Round(cs, m, k)), d, size)
  }

  ghost predicate AllReduce(op: Op, size: int, cs: seq<Contribution>, m: nat, committed: seq<Data>) {
    forall k :: 0 <= k < |committed| ==> RoundReduces(op, size, cs, m, k, committed[k])
  }

  lemma RoundsReduce(op: Op, size: int, cs: seq<Contribution>, m: nat, committed: seq<Data>)
    requires RoundsAre(op, size, cs, m, committed)
    ensures AllReduce(op, size, cs, m, committed)
  {
    forall k | 0 <= k < |committed| ensures RoundReduces(op, size, cs, m, k, committed[k]) {
      assert RoundIs(op, size, cs, m, k, committed[k]);
      FoldReduces(op, DataOf(Round(cs, m, k)), size);
    }
  }

  /** Whatever the interleaving with other keys: every full round is committed once, with its reduction. */
  lemma {:induction false} RoundsAreCommitted(policy: MeshPolicy, size: int, run: Run, key: Key, m: int, n: nat)
    requires IsRun(policy, size, run) && n <= |run.events| && m == policy.MemberCount(0, key.mask)
    ensures KeyOk(size, run, key, m, n)
    ensures AllReduce(key.op, size, OfKey(run.events, key, n), m, Committed(run, key, n))
  {
    if n == 0 {
      CountIsPositive(policy, key.mask);
    } else {
      RoundsAreCommitted(policy, size, run, key, m, n - 1);
      var e := run.events[n - 1];
      assert StepAt(policy, size, run, n - 1);
      if e.key == key {
        CountByMask(policy, e.c.node, key.mask);
        OwnKey(size, run, key, m, n - 1);
      } else {
        OtherKey(size, run, key, m, n - 1, policy.MemberCount(e.c.node, e.key.mask));
      }
    }
    RoundsReduce(key.op, size, OfKey(run.events, key, n), m, Committed(run, key, n));
  }

  /** The number of members depends on the mask only. */
  lemma CountByMask(policy: MeshPolicy, ref: int, mask: nat)
    ensures policy.MemberCount(ref, mask) == policy.MemberCount(0, mask)
  {
  }

  lemma CountIsPositive(policy: MeshPolicy, mask: nat)
    ensures policy.MemberCount(0, mask) > 0
  {
  }

  /** Both runs have the same contributions to a key, up to their order within each round. */
  ghost predicate SameRounds(cs: seq<Contribution>, ds: seq<Contribution>, m: nat) {
    |cs| == |ds| && forall k: nat :: k * m + m <= |cs| ==> SameRound(cs, ds, m, k)
  }

  ghost predicate SameRound(cs: seq<Contribution>, ds: seq<Contribution>, m: nat, k: nat)
    requires |cs| == |ds| && k * m + m <= |cs|
  {
    multiset(DataOf(Round(cs, m, k))) == multiset(DataOf(Round(ds, m, k)))
  }

  lemma RoundsAgree(op: Op, size: int, cs: seq<Contribution>, ds: seq<Contribution>, m: nat, k: nat, x: Data, y: Data)
    requires |cs| == |ds| && RoundIs(op, size, cs, m, k, x) && RoundIs(op, size, ds, m, k, y) && SameRound(cs, ds, m, k)
    ensures x == y
  {
    FoldAnyOrder(op, DataOf(Round(cs, m, k)), DataOf(Round(ds, m, k)), size);
  }

  lemma SameRoundsSameData(size: int, cs: seq<Contribution>, ds: seq<Contribution>, x: seq<Data>, y: seq<Data>,
                           g: Option<Group>, h: Option<Group>, key: Key, m: nat)
    requires m > 0 && KeyHolds(size, cs, x, g, key, m) && KeyHolds(size, ds, y, h, key, m) && SameRounds(cs, ds, m)
    ensures x == y
  {
    SameQuotient(|x|, |y|, m, |cs|);
    forall k | 0 <= k < |x| ensures x[k] == y[k] {
      assert RoundIs(key.op, size, cs, m, k, x[k]) && RoundIs(key.op, size, ds, m, k, y[k]);
      RoundsAgree(key.op, size, cs, ds, m, k, x[k], y[k]);
    }
  }

  /** What is committed for a key does not depend on the order of arrival, nor on what other keys receive. */
  lemma CommittedInAnyOrder(policy: MeshPolicy, size: int, a: Run, b: Run, key: Key, m: nat)
    requires IsRun(policy, size, a) && IsRun(policy, size, b) && m == policy.MemberCount(0, key.mask)
    requires SameRounds(OfKey(a.events, key, |a.events|), OfKey(b.events, key, |b.events|), m)
    ensures Committed(a, key, |a.events|) == Committed(b, key, |b.events|)
  {
    var i, j := |a.events|, |b.events|;
    RoundsAreCommitted(policy, size, a, key, m, i);
    RoundsAreCommitted(policy, size, b, key, m, j);
    SameRoundsSameData(size, OfKey(a.events, key, i), OfKey(b.events, key, j), Committed(a, key, i), Committed(b, key, j),
                       Lookup(a.pending[i], key), Lookup(b.pending[j], key), key, m);
  }

  lemma {:induction false} MulOrder(x: nat, y: nat, m: nat)
    requires x < y
    ensures x * m + m <= y * m
    decreases y
  {
    assert y * m == (y - 1) * m + m;
    if x < y - 1 {
      MulOrder(x, y - 1, m);
    }
  }

  lemma SameQuotient(x: nat, y: nat, m: nat, n: nat)
    requires x * m <= n < x * m + m && y * m <= n < y * m + m
    ensures x == y
  {
    if x < y {
      MulOrder(x, y, m);
    } else if y < x {
      MulOrder(y, x, m);
    }
  }

  lemma OneRound(cs: seq<Contribution>, ds: seq<Contribution>, m: nat)
    requires m > 0 && |cs| == m && multiset(cs) == multiset(ds)
    ensures SameRounds(cs, ds, m)
  {
    SameSize(cs, ds);
    SameData(cs, ds);
    forall k: nat | k * m + m <= |cs| ensures SameRound(cs, ds, m, k) {
      if k > 0 {
        MulOrder(0, k, m);
      }
      assert Round(cs, m, k) == cs && Round(ds, m, k) == ds;
    }
  }

  /** In particular, when each member of a group contributes once, one result is committed, in any order. */
  lemma OneRoundAnyOrder(policy: MeshPolicy, size: int, a: Run, b: Run, key: Key, m: nat)
    requires IsRun(policy, size, a) && IsRun(policy, size, b) && m == policy.MemberCount(0, key.mask)
    requires |OfKey(a.events, key, |a.events|)| == m
    requires multiset(OfKey(a.events, key, |a.events|)) == multiset(OfKey(b.events, key, |b.events|))
    ensures |Committed(a, key, |a.events|)| == 1 && Committed(a, key, |a.events|) == Committed(b, key, |b.events|)
  {
    CountIsPositive(policy, key.mask);
    OneRound(OfKey(a.events, key, |a.events|), OfKey(b.events, key, |b.events|), m);
    CommittedInAnyOrder(policy, size, a, b, key, m);
    RoundsAreCommitted(policy, size, a, key, m, |a.events|);
    SameQuotient(|Committed(a, key, |a.events|)|, 1, m, m);
  }

  lemma {:induction false} SameData(cs: seq<Contribution>, ds: seq<Contribution>)
    requires multiset(cs) == multiset(ds)
    ensures multiset(DataOf(cs)) == multiset(DataOf(ds))
    decreases |cs|
  {
    SameSize(cs, ds);
    if cs != [] {
      var n := |ds| - 1;
      var x := ds[n];
      assert x in cs;
      var i :| 0 <= i < |cs| && cs[i] == x;
      SameWithout(cs, ds, i);
      SameData(Without(cs, i), ds[..n]);
      DataWithout(cs, i);
      assert Without(ds, n) == ds[..n];
      DataWithout(ds, n);
    }
  }

  lemma DataOfWithout(cs: seq<Contribution>, i: int)
    requires 0 <= i < |cs|
    ensures DataOf(Without(cs, i)) == Without(DataOf(cs), i)
  {
    forall k | 0 <= k < |cs| - 1 ensures DataOf(Without(cs, i))[k] == Without(DataOf(cs), i)[k] {
      assert Without(cs, i)[k] == cs[if k < i then k else k + 1];
    }
  }

  lemma DataWithout(cs: seq<Contribution>, i: int)
    requires 0 <= i < |cs|
    ensures multiset(DataOf(cs)) == multiset(DataOf(Without(cs, i))) + multiset{cs[i].data}
  {
    DataOfWithout(cs, i);
    WithoutMultiset(DataOf(cs), i);
  }
}
