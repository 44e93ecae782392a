/** In-network reductions (pulp/floonoc_flex/floonoc_flex.cpp): merging data, and the groups of
    write contributions that converge on one address. Data is a sequence of lanes: bytes for the
    bit-0 AND, 16-bit words for the arithmetic operations. */
module Reductions {
  import opened Wrappers

  datatype Op = LsbAnd | AddU16 | AddI16 | MaxU16 | MaxI16

  type Data = seq<int>

  function Bound(op: Op): int { if op.LsbAnd? then 0x100 else 0x10000 }

  predicate DataOk(op: Op, d: Data, size: int) {
    |d| == size && forall k :: 0 <= k < |d| ==> 0 <= d[k] < Bound(op)
  }

  /** The 16 bits as a two's complement number. */
  function Signed(v: int): (r: int)
    ensures 0 <= v < 0x10000 ==> -0x8000 <= r < 0x8000 && (r - v) % 0x10000 == 0
  {
    if v < 0x8000 then v else v - 0x10000
  }

  /** One lane of `process_collective_operations`. */
  function MergeLane(op: Op, a: int, b: int): int {
    match op
    case LsbAnd => if a % 2 == 1 && b % 2 == 1 then 1 else 0
    case AddU16 => (a + b) % 0x10000
    case AddI16 => (a + b) % 0x10000
    case MaxU16 => if a > b then a else b
    case MaxI16 => if Signed(a) > Signed(b) then a else b
  }

  function Merge(op: Op, a: Data, b: Data): (r: Data)
    requires |a| == |b|
    ensures |r| == |a|
  {
    if a == [] then []
    else Merge(op, a[..|a| - 1], b[..|b| - 1]) + [MergeLane(op, a[|a| - 1], b[|b| - 1])]
  }

  lemma {:induction false} MergeAt(op: Op, a: Data, b: Data, k: int)
    requires |a| == |b| && 0 <= k < |a|
    ensures Merge(op, a, b)[k] == MergeLane(op, a[k], b[k])
    decreases |a|
  {
    if k < |a| - 1 {
      MergeAt(op, a[..|a| - 1], b[..|b| - 1], k);
    }
  }

  /** `process_collective_operations`: merges `src` into `dst` in place. */
  method ProcessCollectiveOperations(op: Op, dst: array<int>, src: array<int>)
    requires dst != src && dst.Length == src.Length
    modifies dst
    ensures dst[..] == Merge(op, old(dst[..]), src[..])
    ensures forall k :: 0 <= k < dst.Length ==> LaneReduces(op, [old(dst[k]), src[k]], dst[k])
  {
    for i := 0 to src.Length
      invariant forall k :: 0 <= k < i ==> dst[k] == MergeLane(op, old(dst[k]), src[k])
      invariant forall k :: i <= k < dst.Length ==> dst[k] == old(dst[k])
    {
      match op {
        case LsbAnd => dst[i] := if dst[i] % 2 == 1 && src[i] % 2 == 1 then 1 else 0;
        case AddU16 => dst[i] := (dst[i] + src[i]) % 0x10000;
        case AddI16 => dst[i] := (dst[i] + src[i]) % 0x10000;
        case MaxU16 => dst[i] := if dst[i] > src[i] then dst[i] else src[i];
        case MaxI16 => dst[i] := if Signed(dst[i]) > Signed(src[i]) then dst[i] else src[i];
      }
    }
    forall k | 0 <= k < dst.Length
      ensures dst[k] == Merge(op, old(dst[..]), src[..])[k] && LaneReduces(op, [old(dst[k]), src[k]], dst[k])
    {
      MergeAt(op, old(dst[..]), src[..], k);
      TwoLanes(op, old(dst[k]), src[k]);
    }
  }

  lemma MergeOk(op: Op, a: Data, b: Data, size: int)
    requires DataOk(op, a, size) && DataOk(op, b, size)
    ensures DataOk(op, Merge(op, a, b), size)
  {
    forall k | 0 <= k < size ensures 0 <= Merge(op, a, b)[k] < Bound(op) {
      MergeAt(op, a, b, k);
    }
  }

  lemma MergeCommutes(op: Op, a: Data, b: Data, size: int)
    requires DataOk(op, a, size) && DataOk(op, b, size)
    ensures Merge(op, a, b) == Merge(op, b, a)
  {
    forall k | 0 <= k < size ensures Merge(op, a, b)[k] == Merge(op, b, a)[k] {
      MergeAt(op, a, b, k);
      MergeAt(op, b, a, k);
    }
  }

  lemma LaneAssociates(op: Op, a: int, b: int, c: int)
    ensures MergeLane(op, MergeLane(op, a, b), c) == MergeLane(op, a, MergeLane(op, b, c))
  {
  }

  lemma MergeAssociates(op: Op, a: Data, b: Data, c: Data)
    requires |a| == |b| == |c|
    ensures Merge(op, Merge(op, a, b), c) == Merge(op, a, Merge(op, b, c))
  {
    forall k | 0 <= k < |a|
      ensures Merge(op, Merge(op, a, b), c)[k] == Merge(op, a, Merge(op, b, c))[k]
    {
      LaneAssociates(op, a[k], b[k], c[k]);
      MergeAt(op, a, b, k);
      MergeAt(op, b, c, k);
      MergeAt(op, Merge(op, a, b), c, k);
      MergeAt(op, a, Merge(op, b, c), k);
    }
  }

  predicate AllOk(op: Op, s: seq<Data>, size: int) {
    forall k :: 0 <= k < |s| ==> DataOk(op, s[k], size)
  }

  /** All contributions merged, the first one being the accumulator. */
  function Fold(op: Op, s: seq<Data>, size: int): (r: Data)
    requires s != [] && AllOk(op, s, size)
    ensures DataOk(op, r, size)
  {
    if |s| == 1 then s[0]
    else
      var before := Fold(op, s[..|s| - 1], size);
      MergeOk(op, before, s[|s| - 1], size);
      Merge(op, before, s[|s| - 1])
  }

  function Sum(xs: seq<int>): int {
    if xs == [] then 0 else Sum(xs[..|xs| - 1]) + xs[|xs| - 1]
  }

  /** Lane `k` of every contribution. */
  function Lane(s: seq<Data>, k: int): (r: seq<int>)
    requires 0 <= k && forall i :: 0 <= i < |s| ==> k < |s[i]|
    ensures |r| == |s| && forall i :: 0 <= i < |s| ==> r[i] == s[i][k]
  {
    seq(|s|, i requires 0 <= i < |s| => s[i][k])
  }

  /** What the operation makes of some lanes: their sum modulo 2^16, the greatest of them, or whether
      bit 0 is set in all. */
  ghost predicate LaneReduces(op: Op, xs: seq<int>, v: int) {
    match op
    case LsbAnd => v == if forall i :: 0 <= i < |xs| ==> xs[i] % 2 == 1 then 1 else 0
    case AddU16 => v == Sum(xs) % 0x10000
    case AddI16 => v == Sum(xs) % 0x10000
    case MaxU16 => v in xs && forall i :: 0 <= i < |xs| ==> xs[i] <= v
    case MaxI16 => v in xs && forall i :: 0 <= i < |xs| ==> Signed(xs[i]) <= Signed(v)
  }

  /** `d` is the reduction of the contributions `s`, lane by lane. */
  ghost predicate Reduces(op: Op, s: seq<Data>, d: Data, size: int) {
    |d| == size && AllOk(op, s, size) && forall k :: 0 <= k < size ==> LaneReduces(op, Lane(s, k), d[k])
  }

  lemma SumAppend(xs: seq<int>, x: int)
    ensures Sum(xs + [x]) == Sum(xs) + x
  {
    assert (xs + [x])[..|xs|] == xs;
  }

  lemma SumOne(a: int)
    ensures Sum([a]) == a
  {
    SumAppend([], a);
    assert [] + [a] == [a];
  }

  lemma TwoLanes(op: Op, a: int, b: int)
    ensures LaneReduces(op, [a, b], MergeLane(op, a, b))
  {
    SumOne(a);
    SumAppend([a], b);
    assert [a] + [b] == [a, b];
    assert [a, b][0] == a && [a, b][1] == b;
  }

  lemma OneLane(op: Op, a: int)
    requires 0 <= a < Bound(op) && !op.LsbAnd?
    ensures LaneReduces(op, [a], a)
  {
    SumOne(a);
    assert [a][0] == a;
  }

  lemma ModAdd(s: int, v: int, x: int)
    requires v == s % 0x10000
    ensures (v + x) % 0x10000 == (s + x) % 0x10000
  {
  }

  lemma LaneGrows(op: Op, xs: seq<int>, v: int, x: int)
    requires LaneReduces(op, xs, v)
    ensures LaneReduces(op, xs + [x], MergeLane(op, v, x))
  {
    var ys := xs + [x];
    assert forall i :: 0 <= i < |xs| ==> ys[i] == xs[i];
    assert ys[|xs|] == x;
    SumAppend(xs, x);
    if op.AddU16? || op.AddI16? {
      ModAdd(Sum(xs), v, x);
    }
  }

  /** A single lane, before the bit-0 AND has cut it down. */
  ghost predicate LaneBegins(op: Op, xs: seq<int>, v: int) {
    if op.LsbAnd? then (v % 2 == 1 <==> forall i :: 0 <= i < |xs| ==> xs[i] % 2 == 1) else LaneReduces(op, xs, v)
  }

  lemma LaneJoins(op: Op, xs: seq<int>, v: int, x: int)
    requires LaneBegins(op, xs, v)
    ensures LaneReduces(op, xs + [x], MergeLane(op, v, x))
  {
    if op.LsbAnd? {
      var ys := xs + [x];
      assert forall i :: 0 <= i < |xs| ==> ys[i] == xs[i];
      assert ys[|xs|] == x;
    } else {
      LaneGrows(op, xs, v, x);
    }
  }

  lemma FoldStep(op: Op, s: seq<Data>, size: int, k: int)
    requires |s| > 1 && AllOk(op, s, size) && 0 <= k < size
    ensures Fold(op, s, size)[k] == MergeLane(op, Fold(op, s[..|s| - 1], size)[k], s[|s| - 1][k])
    ensures Lane(s, k) == Lane(s[..|s| - 1], k) + [s[|s| - 1][k]]
  {
    MergeAt(op, Fold(op, s[..|s| - 1], size), s[|s| - 1], k);
  }

  lemma LaneStarts(op: Op, a: int, xs: seq<int>)
    requires 0 <= a < Bound(op) && xs == [a]
    ensures LaneBegins(op, xs, a) && (!op.LsbAnd? ==> LaneReduces(op, xs, a))
  {
    if op.LsbAnd? {
      assert xs[0] == a;
    } else {
      OneLane(op, a);
    }
  }

  lemma LaneReducesBegins(op: Op, xs: seq<int>, v: int)
    requires LaneReduces(op, xs, v)
    ensures LaneBegins(op, xs, v)
  {
  }

  lemma {:induction false} FoldBegins(op: Op, s: seq<Data>, size: int, k: int)
    requires s != [] && AllOk(op, s, size) && 0 <= k < size
    ensures LaneBegins(op, Lane(s, k), Fold(op, s, size)[k])
    ensures |s| >= 2 || !op.LsbAnd? ==> LaneReduces(op, Lane(s, k), Fold(op, s, size)[k])
    decreases |s|
  {
    var n := |s| - 1;
    if n == 0 {
      assert DataOk(op, s[0], size);
      LaneStarts(op, s[0][k], Lane(s, k));
    } else {
      var init := s[..n];
      FoldBegins(op, init, size, k);
      FoldStep(op, s, size, k);
      LaneJoins(op, Lane(init, k), Fold(op, init, size)[k], s[n][k]);
      LaneReducesBegins(op, Lane(s, k), Fold(op, s, size)[k]);
    }
  }

  /** A fold of contributions is their reduction; a single one passes the bit-0 AND unchanged. */
  lemma FoldReduces(op: Op, s: seq<Data>, size: int)
    requires s != [] && AllOk(op, s, size)
    ensures |s| >= 2 || !op.LsbAnd? ==> Reduces(op, s, Fold(op, s, size), size)
    ensures |s| == 1 ==> Fold(op, s, size) == s[0]
  {
    forall k | 0 <= k < size
      ensures |s| >= 2 || !op.LsbAnd? ==> LaneReduces(op, Lane(s, k), Fold(op, s, size)[k])
    {
      FoldBegins(op, s, size, k);
    }
  }

  function Without<T>(s: seq<T>, i: int): seq<T>
    requires 0 <= i < |s|
  {
    s[..i] + s[i + 1..]
  }

  lemma MergeSwap(op: Op, a: Data, x: Data, y: Data, size: int)
    requires DataOk(op, a, size) && DataOk(op, x, size) && DataOk(op, y, size)
    ensures Merge(op, Merge(op, a, x), y) == Merge(op, Merge(op, a, y), x)
  {
    MergeAssociates(op, a, x, y);
    MergeCommutes(op, x, y, size);
    MergeAssociates(op, a, y, x);
  }

  lemma FoldAppend(op: Op, s: seq<Data>, x: Data, size: int)
    requires AllOk(op, s, size) && DataOk(op, x, size)
    ensures AllOk(op, s + [x], size)
    ensures Fold(op, s + [x], size) == if s == [] then x else Merge(op, Fold(op, s, size), x)
  {
    assert (s + [x])[..|s|] == s;
  }

  lemma AllOkParts(op: Op, s: seq<Data>, t: seq<Data>, size: int)
    ensures AllOk(op, s + t, size) <==> AllOk(op, s, size) && AllOk(op, t, size)
  {
    forall k | 0 <= k < |s| + |t| ensures (s + t)[k] == if k < |s| then s[k] else t[k - |s|] {
    }
    if AllOk(op, s + t, size) {
      forall k | 0 <= k < |t| ensures DataOk(op, t[k], size) {
        assert t[k] == (s + t)[|s| + k];
      }
      forall k | 0 <= k < |s| ensures DataOk(op, s[k], size) {
        assert s[k] == (s + t)[k];
      }
    }
  }

  lemma WithoutOk(op: Op, s: seq<Data>, i: int, size: int)
    requires AllOk(op, s, size) && 0 <= i < |s|
    ensures AllOk(op, Without(s, i), size)
  {
  }

  lemma WithoutAppend(s: seq<Data>, x: Data, i: int)
    requires 0 <= i <= |s|
    ensures Without(s + [x], i) == if i == |s| then s else Without(s, i) + [x]
  {
  }

  /** Any contribution may come last. */
  lemma {:induction false} FoldLast(op: Op, s: seq<Data>, x: Data, i: int, size: int)
    requires s != [] && AllOk(op, s, size) && DataOk(op, x, size) && 0 <= i <= |s|
    ensures
      var all := s + [x];
      && AllOk(op, all, size) && AllOk(op, Without(all, i), size)
      && Fold(op, all, size) == Merge(op, Fold(op, Without(all, i), size), all[i])
    decreases |s|, 1
  {
    WithoutAppend(s, x, i);
    FoldAppend(op, s, x, size);
    if i < |s| {
      WithoutOk(op, s, i, size);
      FoldAppend(op, Without(s, i), x, size);
      if |s| == 1 {
        MergeCommutes(op, s[0], x, size);
      } else {
        FoldInner(op, s, i, size);
        MergeSwap(op, Fold(op, Without(s, i), size), s[i], x, size);
      }
    }
  }

  lemma {:induction false} FoldInner(op: Op, s: seq<Data>, i: int, size: int)
    requires |s| > 1 && AllOk(op, s, size) && 0 <= i < |s|
    ensures AllOk(op, Without(s, i), size) && Fold(op, s, size) == Merge(op, Fold(op, Without(s, i), size), s[i])
    decreases |s|, 0
  {
    var init, last := s[..|s| - 1], s[|s| - 1];
    assert s == init + [last];
    FoldLast(op, init, last, i, size);
  }

  lemma WithoutMultiset<T>(s: seq<T>, i: int)
    requires 0 <= i < |s|
    ensures multiset(s) == multiset(Without(s, i)) + multiset{s[i]}
  {
    assert s == s[..i] + [s[i]] + s[i + 1..];
  }

  lemma SameWithout<T>(s: seq<T>, t: seq<T>, i: int)
    requires multiset(s) == multiset(t) && |s| == |t| && 0 <= i < |s| && s[i] == t[|t| - 1]
    ensures |Without(s, i)| == |s| - 1 && multiset(Without(s, i)) == multiset(t[..|t| - 1])
  {
    WithoutMultiset(s, i);
    WithoutMultiset(t, |t| - 1);
    assert Without(t, |t| - 1) == t[..|t| - 1];
    assert multiset(Without(s, i)) == multiset(s) - multiset{s[i]};
  }

  lemma SameSize<T>(s: seq<T>, t: seq<T>)
    requires multiset(s) == multiset(t)
    ensures |s| == |t| && forall x :: x in s <==> x in t
  {
    assert |multiset(s)| == |s| && |multiset(t)| == |t|;
    forall x ensures x in s <==> x in t {
      assert x in multiset(s) <==> x in multiset(t);
    }
  }

  /** The result of a reduction does not depend on the order of arrival. */
  lemma {:induction false} FoldAnyOrder(op: Op, s: seq<Data>, t: seq<Data>, size: int)
    requires s != [] && multiset(s) == multiset(t) && AllOk(op, s, size) && AllOk(op, t, size)
    ensures t != [] && Fold(op, s, size) == Fold(op, t, size)
    decreases |s|
  {
    SameSize(s, t);
    var n := |t| - 1;
    var init, x := t[..n], t[n];
    assert t == init + [x];
    assert x in s;
    var i :| 0 <= i < |s| && s[i] == x;
    if n > 0 {
      SameWithout(s, t, i);
      WithoutOk(op, s, i, size);
      FoldInner(op, s, i, size);
      FoldAnyOrder(op, Without(s, i), init, size);
      FoldAppend(op, init, x, size);
    }
  }

  lemma {:induction false} FoldConcat(op: Op, s: seq<Data>, t: seq<Data>, size: int)
    requires s != [] && t != [] && AllOk(op, s, size) && AllOk(op, t, size)
    ensures AllOk(op, s + t, size)
    ensures Fold(op, s + t, size) == Merge(op, Fold(op, s, size), Fold(op, t, size))
    decreases |t|
  {
    AllOkParts(op, s, t, size);
    var init, x := t[..|t| - 1], t[|t| - 1];
    assert t == init + [x] && s + t == s + init + [x];
    AllOkParts(op, s, init, size);
    FoldAppend(op, s + init, x, size);
    if init == [] {
      assert s + init == s;
    } else {
      FoldConcat(op, s, init, size);
      FoldAppend(op, init, x, size);
      MergeAssociates(op, Fold(op, s, size), Fold(op, init, size), x);
    }
  }

  /** A write contribution of a node; `req` identifies the request. */
  datatype Contribution = Contribution(req: int, node: int, data: Data)

  datatype Key = Key(addr: int, op: Op, mask: nat)

  /** `PendingWriteReduction`: the accumulator's data is `data`. */
  datatype Group = Group(key: Key, accumulator: Contribution, data: Data, others: seq<Contribution>,
                         expected: int, received: int)

  datatype AckGroup = AckGroup(accumulator: Contribution, addr: int, mask: int, others: seq<Contribution>)

  function DataOf(cs: seq<Contribution>): (r: seq<Data>)
    ensures |r| == |cs| && forall k :: 0 <= k < |cs| ==> r[k] == cs[k].data
  {
    seq(|cs|, k requires 0 <= k < |cs| => cs[k].data)
  }

  function All(g: Group): seq<Contribution> { [g.accumulator] + g.others }

  /** The group holds the merge of what it received, and still waits. */
  ghost predicate Collecting(g: Group, size: int) {
    && AllOk(g.key.op, DataOf(All(g)), size) && g.data == Fold(g.key.op, DataOf(All(g)), size)
    && g.received == |All(g)|
  }

  ghost predicate UniqueKeys(gs: seq<Group>) {
    forall i, j :: 0 <= i < j < |gs| ==> gs[i].key != gs[j].key
  }

  /** The pending group of a key. */
  function Lookup(gs: seq<Group>, key: Key): Option<Group> {
    if gs == [] then None
    else if gs[0].key == key then Some(gs[0])
    else Lookup(gs[1..], key)
  }

  lemma {:induction false} LookupIsMember(gs: seq<Group>, key: Key)
    ensures Lookup(gs, key).Some? ==> Lookup(gs, key).value in gs && Lookup(gs, key).value.key == key
    ensures Lookup(gs, key).None? ==> forall k :: 0 <= k < |gs| ==> gs[k].key != key
    decreases |gs|
  {
    if gs != [] {
      LookupIsMember(gs[1..], key);
    }
  }

  lemma {:induction false} LookupAt(gs: seq<Group>, i: int)
    requires UniqueKeys(gs) && 0 <= i < |gs|
    ensures Lookup(gs, gs[i].key) == Some(gs[i])
    decreases |gs|
  {
    if i > 0 {
      LookupAt(gs[1..], i - 1);
    }
  }

  lemma MemberHasLookup(gs: seq<Group>, g: Group)
    requires UniqueKeys(gs) && g in gs
    ensures Lookup(gs, g.key) == Some(g)
  {
    var i :| 0 <= i < |gs| && gs[i] == g;
    LookupAt(gs, i);
  }

  /** Two lists with unique keys and the same members under a key have the same group there. */
  lemma SameLookup(gs: seq<Group>, hs: seq<Group>, key: Key)
    requires UniqueKeys(gs) && UniqueKeys(hs)
    requires forall g: Group :: g.key == key ==> (g in gs <==> g in hs)
    ensures Lookup(gs, key) == Lookup(hs, key)
  {
    LookupIsMember(gs, key);
    LookupIsMember(hs, key);
    if Lookup(gs, key).Some? {
      MemberHasLookup(hs, Lookup(gs, key).value);
    } else if Lookup(hs, key).Some? {
      MemberHasLookup(gs, Lookup(hs, key).value);
    }
  }

  /** Removal by moving the last element into the gap. */
  function SwapRemove<T>(s: seq<T>, i: int): seq<T>
    requires 0 <= i < |s|
  {
    s[i := s[|s| - 1]][..|s| - 1]
  }

  lemma SwapRemoveKeeps(gs: seq<Group>, i: int, key: Key)
    requires UniqueKeys(gs) && 0 <= i < |gs|
    ensures UniqueKeys(SwapRemove(gs, i))
    ensures Lookup(SwapRemove(gs, i), key) == if key == gs[i].key then None else Lookup(gs, key)
  {
    var hs, n := SwapRemove(gs, i), |gs| - 1;
    forall j, k | 0 <= j < k < |hs| ensures hs[j].key != hs[k].key {
      assert hs[j] == (if j == i then gs[n] else gs[j]) && hs[k] == if k == i then gs[n] else gs[k];
    }
    if key == gs[i].key {
      LookupIsMember(hs, key);
    } else {
      forall g: Group | g.key == key ensures g in gs <==> g in hs {
        if g in gs {
          var j :| 0 <= j < |gs| && gs[j] == g;
          assert j < n ==> hs[j] == g;
          assert j == n ==> hs[i] == g;
        }
      }
      SameLookup(gs, hs, key);
    }
  }

  lemma UpdateKeeps(gs: seq<Group>, i: int, g: Group, key: Key)
    requires UniqueKeys(gs) && 0 <= i < |gs| && g.key == gs[i].key
    ensures UniqueKeys(gs[i := g])
    ensures Lookup(gs[i := g], key) == if key == g.key then Some(g) else Lookup(gs, key)
  {
    var hs := gs[i := g];
    LookupAt(hs, i);
    if key != g.key {
      forall x: Group | x.key == key ensures x in gs <==> x in hs {
        if x in gs {
          var j :| 0 <= j < |gs| && gs[j] == x;
          assert hs[j] == x;
        }
      }
      SameLookup(gs, hs, key);
    }
  }

  lemma {:induction false} AppendKeeps(gs: seq<Group>, g: Group, key: Key)
    requires UniqueKeys(gs) && Lookup(gs, g.key).None?
    ensures UniqueKeys(gs + [g])
    ensures Lookup(gs + [g], key) == if key == g.key then Some(g) else Lookup(gs, key)
  {
    LookupIsMember(gs, g.key);
    LookupAt(gs + [g], |gs|);
    if key != g.key {
      SameLookup(gs, gs + [g], key);
    }
  }

  /** `hs` is `gs` with another group, or none, under `key`; all other groups are the same. */
  ghost predicate OnlyChanges(gs: seq<Group>, hs: seq<Group>, key: Key, now: Option<Group>) {
    UniqueKeys(hs) && Lookup(hs, key) == now && forall k :: k != key ==> Lookup(hs, k) == Lookup(gs, k)
  }

  lemma AppendChanges(gs: seq<Group>, g: Group)
    requires UniqueKeys(gs) && Lookup(gs, g.key).None?
    ensures OnlyChanges(gs, gs + [g], g.key, Some(g))
  {
    forall k: Key ensures UniqueKeys(gs + [g]) && Lookup(gs + [g], k) == if k == g.key then Some(g) else Lookup(gs, k) {
      AppendKeeps(gs, g, k);
    }
    AppendKeeps(gs, g, g.key);
  }

  lemma UpdateChanges(gs: seq<Group>, i: int, g: Group)
    requires UniqueKeys(gs) && 0 <= i < |gs| && g.key == gs[i].key
    ensures OnlyChanges(gs, gs[i := g], g.key, Some(g))
  {
    forall k: Key ensures Lookup(gs[i := g], k) == if k == g.key then Some(g) else Lookup(gs, k) {
      UpdateKeeps(gs, i, g, k);
    }
    UpdateKeeps(gs, i, g, g.key);
  }

  /** Swap-removal takes out one group and leaves all others unchanged. */
  lemma RemoveChanges(gs: seq<Group>, i: int)
    requires UniqueKeys(gs) && 0 <= i < |gs|
    ensures OnlyChanges(gs, SwapRemove(gs, i), gs[i].key, None)
  {
    forall k: Key ensures Lookup(SwapRemove(gs, i), k) == if k == gs[i].key then None else Lookup(gs, k) {
      SwapRemoveKeeps(gs, i, k);
    }
    SwapRemoveKeeps(gs, i, gs[i].key);
  }

  /** The group after one more contribution. */
  function Joined(before: Option<Group>, key: Key, c: Contribution, expected: int): Group
    requires before.Some? ==> |before.value.data| == |c.data|
  {
    match before
    case None => Group(key, c, c.data, [], expected, 1)
    case Some(g) => g.(data := Merge(g.key.op, g.data, c.data), others := g.others + [c], received := g.received + 1)
  }

  lemma JoinedCollects(before: Option<Group>, key: Key, c: Contribution, expected: int, size: int)
    requires DataOk(key.op, c.data, size)
    requires before.Some? ==> before.value.key == key && Collecting(before.value, size)
    ensures before.Some? ==> |before.value.data| == |c.data|
    ensures Collecting(Joined(before, key, c, expected), size)
    ensures All(Joined(before, key, c, expected)) == (if before.Some? then All(before.value) else []) + [c]
  {
    var g := Joined(before, key, c, expected);
    if before.Some? {
      assert All(g)[..|All(g)| - 1] == All(before.value);
      assert DataOf(All(g))[..|All(g)| - 1] == DataOf(All(before.value));
    } else {
      assert DataOf(All(g)) == [c.data];
    }
  }

  /** One contribution: its group waits on, or is committed, as `done`; no other group changes. */
  ghost predicate Contributed(before: seq<Group>, key: Key, c: Contribution, memberCount: int, after: seq<Group>,
                              done: Option<Group>)
  {
    && (Lookup(before, key).Some? ==> |Lookup(before, key).value.data| == |c.data|)
    && var g := Joined(Lookup(before, key), key, c, memberCount);
       if g.received < g.expected then done == None && OnlyChanges(before, after, key, Some(g))
       else done == Some(g) && OnlyChanges(before, after, key, None)
  }

  /** The pending group of a key holds what it received, and is not complete. */
  ghost predicate WaitingAt(gs: seq<Group>, key: Key, size: int) {
    var g := Lookup(gs, key);
    g.Some? ==> g.value.key == key && Collecting(g.value, size) && g.value.received < g.value.expected
  }

  ghost predicate AllWaiting(gs: seq<Group>, size: int) {
    UniqueKeys(gs) && forall key :: WaitingAt(gs, key, size)
  }

  lemma ChangeKeepsWaiting(before: seq<Group>, after: seq<Group>, key: Key, now: Option<Group>, size: int)
    requires AllWaiting(before, size) && OnlyChanges(before, after, key, now)
    requires now.Some? ==> now.value.key == key && Collecting(now.value, size) && now.value.received < now.value.expected
    ensures AllWaiting(after, size)
  {
    forall k ensures WaitingAt(after, k, size) {
      assert WaitingAt(before, k, size);
    }
  }

  lemma ChangesCompose(gs: seq<Group>, hs: seq<Group>, js: seq<Group>, key: Key, g: Option<Group>, now: Option<Group>)
    requires OnlyChanges(gs, hs, key, g) && OnlyChanges(hs, js, key, now)
    ensures OnlyChanges(gs, js, key, now)
  {
  }

  /** The reductions of a network. */
  class WriteReductions {
    const size: int
    var pending: seq<Group>
    var acks: seq<AckGroup>

    ghost predicate Valid()
      reads this
    {
      AllWaiting(pending, size)
    }

    constructor (size: int)
      ensures Valid() && pending == [] && acks == [] && this.size == size
    {
      this.size, pending, acks := size, [], [];
    }

    /** Finds or opens the key's group and adds a contribution to it. */
    method Join(key: Key, c: Contribution, memberCount: int) returns (i: int)
      requires Valid() && DataOk(key.op, c.data, size)
      modifies this`pending
      ensures WaitingAt(old(pending), key, size)
      ensures 0 <= i < |pending| && pending[i] == Joined(Lookup(old(pending), key), key, c, memberCount)
      ensures pending[i].key == key && OnlyChanges(old(pending), pending, key, Some(pending[i]))
    {
      i := Find(key);
      assert WaitingAt(pending, key, size);
      if i == |pending| {
        var g := Group(key, c, c.data, [], memberCount, 1);
        AppendChanges(pending, g);
        pending := pending + [g];
      } else {
        var g := pending[i];
        var merged := g.(data := Merge(g.key.op, g.data, c.data), others := g.others + [c], received := g.received + 1);
        UpdateChanges(pending, i, merged);
        pending := pending[i := merged];
      }
    }

    /** `handle_write_reduction_contribution`: a group is committed by exactly the contribution that
        completes it, and no other group changes. */
    method Contribute(key: Key, c: Contribution, memberCount: int) returns (done: Option<Group>)
      requires Valid() && DataOk(key.op, c.data, size) && memberCount > 0
      modifies this
      ensures Valid() && Contributed(old(pending), key, c, memberCount, pending, done)
      ensures done.Some? ==> done.value.key == key && Collecting(done.value, size)
      ensures acks == old(acks) +
        if done.Some? then [AckGroup(done.value.accumulator, key.addr, key.mask, done.value.others)] else []
    {
      ghost var before := pending;
      var i := Join(key, c, memberCount);
      JoinedCollects(Lookup(before, key), key, c, memberCount, size);
      var g := pending[i];
      done := None;
      if g.received >= g.expected {
        acks := acks + [AckGroup(g.accumulator, key.addr, key.mask, g.others)];
        RemoveChanges(pending, i);
        ChangesCompose(before, pending, SwapRemove(pending, i), key, Some(g), None);
        pending := pending[i := pending[|pending| - 1]][..|pending| - 1];
        done := Some(g);
      }
      ChangeKeepsWaiting(before, pending, key, if g.received >= g.expected then None else Some(g), size);
    }

    /** The index of the key's group, or the number of groups if it has none. */
    method Find(key: Key) returns (i: int)
      requires Valid()
      ensures 0 <= i <= |pending|
      ensures i < |pending| ==> pending[i].key == key && Lookup(pending, key) == Some(pending[i])
      ensures i == |pending| ==> Lookup(pending, key) == None
    {
      i := 0;
      while i < |pending|
        invariant 0 <= i <= |pending|
        invariant Lookup(pending[i..], key) == Lookup(pending, key)
      {
        if pending[i].key == key {
          return;
        }
        assert pending[i..][1..] == pending[i + 1..];
        i := i + 1;
      }
    }
  }
}
