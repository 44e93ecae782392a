/** Forked collective requests (pulp/floonoc_flex/floonoc_router_flex.cpp and floonoc_flex.cpp): a
    request with several next hops is replaced by children, whose completions are counted and merged up
    the fork tree. Requests are numbered in the order of their allocation. */
module ForkJoin {
  import opened Wrappers
  import opened Reductions

  /** `REQ_PARENT` (-1 for the root), `REQ_PEND_KIDS` and the data of a request; `live` until it is
      deleted; `got` records, for the specification, the answers merged into it. */
  datatype Node = Node(parent: int, pend: int, live: bool, forked: bool, data: Data, got: seq<Data>) {

    /** In flight: neither forked nor answered yet. */
    predicate Leaf() { live && !forked && got == [] }
  }

  /** `op` is None for a plain multicast. `done` counts root completions; `result` and `collected` are
      the data and the answers of the completed root. */
  datatype Tree = Tree(op: Option<Op>, size: nat, nodes: seq<Node>, done: int, result: Data,
                       collected: seq<Data>, answered: seq<Data>)

  function IdentityLane(op: Op): int {
    match op
    case LsbAnd => 0xFF
    case AddU16 => 0
    case AddI16 => 0
    case MaxU16 => 0
    case MaxI16 => 0x8000
  }

  /** `init_reduction_identity` */
  function Identity(op: Op, size: nat): (d: Data)
    ensures DataOk(op, d, size)
  {
    seq(size, _ => IdentityLane(op))
  }

  /** The reduction of some answers, from the identity on. */
  function FoldFrom(op: Op, s: seq<Data>, size: nat): Data
    requires AllOk(op, s, size)
  {
    AllOkParts(op, [Identity(op, size)], s, size);
    Fold(op, [Identity(op, size)] + s, size)
  }

  lemma NeutralLane(op: Op, a: int, b: int)
    requires 0 <= a < Bound(op) && 0 <= b < Bound(op)
    ensures MergeLane(op, a, MergeLane(op, IdentityLane(op), b)) == MergeLane(op, a, b)
  {
  }

  /** The identity is neutral in every later merge, although it is not for the bit-0 AND on its own. */
  lemma IdentityNeutral(op: Op, a: Data, b: Data, size: nat)
    requires DataOk(op, a, size) && DataOk(op, b, size)
    ensures Merge(op, a, Merge(op, Identity(op, size), b)) == Merge(op, a, b)
  {
    var id := Identity(op, size);
    forall k | 0 <= k < size ensures Merge(op, a, Merge(op, id, b))[k] == Merge(op, a, b)[k] {
      NeutralLane(op, a[k], b[k]);
      MergeAt(op, id, b, k);
      MergeAt(op, a, Merge(op, id, b), k);
      MergeAt(op, a, b, k);
    }
  }

  lemma FoldFromAppend(op: Op, s: seq<Data>, d: Data, size: nat)
    requires AllOk(op, s, size) && DataOk(op, d, size)
    ensures AllOk(op, s + [d], size) && FoldFrom(op, s + [d], size) == Merge(op, FoldFrom(op, s, size), d)
  {
    var id := [Identity(op, size)];
    assert id + (s + [d]) == id + s + [d];
    AllOkParts(op, s, [d], size);
    AllOkParts(op, id, s, size);
    FoldAppend(op, id + s, d, size);
  }

  /** Merging a merged child is merging all it got. */
  lemma FoldFromConcat(op: Op, s: seq<Data>, t: seq<Data>, size: nat)
    requires AllOk(op, s, size) && AllOk(op, t, size) && t != []
    ensures AllOk(op, s + t, size)
    ensures FoldFrom(op, s + t, size) == Merge(op, FoldFrom(op, s, size), FoldFrom(op, t, size))
  {
    var id := [Identity(op, size)];
    AllOkParts(op, s, t, size);
    AllOkParts(op, id, s, size);
    assert id + (s + t) == id + s + t;
    FoldConcat(op, id + s, t, size);
    FoldConcat(op, id, t, size);
    IdentityNeutral(op, Fold(op, id + s, size), Fold(op, t, size), size);
  }

  /** The identity leaves no trace in the sum, the maximum or the AND of some answers. */
  lemma LaneFromIdentity(op: Op, xs: seq<int>, v: int)
    requires xs != [] && (forall i :: 0 <= i < |xs| ==> 0 <= xs[i] < Bound(op))
    requires LaneReduces(op, [IdentityLane(op)] + xs, v)
    ensures LaneReduces(op, xs, v)
  {
    var ys := [IdentityLane(op)] + xs;
    assert forall i :: 0 <= i < |xs| ==> ys[i + 1] == xs[i];
    assert ys[0] == IdentityLane(op);
    if op.AddU16? || op.AddI16? {
      SumPrepend(0, xs);
    } else if !op.LsbAnd? {
      assert v == ys[0] || v in xs;
      assert ys[1] == xs[0] && xs[0] in xs;
    }
  }

  lemma {:induction false} SumPrepend(x: int, xs: seq<int>)
    ensures Sum([x] + xs) == x + Sum(xs)
    decreases |xs|
  {
    if xs == [] {
      assert [x] + xs == [x];
      SumOne(x);
    } else {
      var init := xs[..|xs| - 1];
      SumPrepend(x, init);
      assert ([x] + xs)[..|xs|] == [x] + init;
    }
  }

  /** The reduction from the identity on is that of the answers alone. */
  lemma FoldFromReduces(op: Op, s: seq<Data>, size: nat)
    requires AllOk(op, s, size) && s != []
    ensures Reduces(op, s, FoldFrom(op, s, size), size)
  {
    var all := [Identity(op, size)] + s;
    AllOkParts(op, [Identity(op, size)], s, size);
    FoldReduces(op, all, size);
    forall k | 0 <= k < size ensures LaneReduces(op, Lane(s, k), FoldFrom(op, s, size)[k]) {
      assert Lane(all, k) == [IdentityLane(op)] + Lane(s, k);
      assert forall i :: 0 <= i < |s| ==> DataOk(op, s[i], size);
      LaneFromIdentity(op, Lane(s, k), FoldFrom(op, s, size)[k]);
    }
  }

  lemma FoldFromAnyOrder(op: Op, s: seq<Data>, t: seq<Data>, size: nat)
    requires AllOk(op, s, size) && AllOk(op, t, size) && multiset(s) == multiset(t)
    ensures FoldFrom(op, s, size) == FoldFrom(op, t, size)
  {
    var id := [Identity(op, size)];
    AllOkParts(op, id, s, size);
    AllOkParts(op, id, t, size);
    FoldAnyOrder(op, id + s, id + t, size);
  }

  predicate ValueOk(op: Option<Op>, d: Data, size: nat) {
    op.Some? ==> DataOk(op.value, d, size)
  }

  function MergeData(op: Option<Op>, a: Data, b: Data): Data {
    if op.Some? && |a| == |b| then Merge(op.value, a, b) else a
  }

  /** What a fork point holds is the reduction of what it got. */
  predicate Holds(op: Option<Op>, data: Data, got: seq<Data>, size: nat) {
    op.Some? ==> AllOk(op.value, got, size) && data == FoldFrom(op.value, got, size)
  }

  /** `fork_collective_child`, once per next hop. */
  function Fork(t: Tree, i: int, k: nat): Tree
    requires 0 <= i < |t.nodes|
  {
    var data := if t.op.Some? then Identity(t.op.value, t.size) else t.nodes[i].data;
    t.(nodes := t.nodes[i := t.nodes[i].(forked := true, pend := k, data := data)]
                + Children(i, data, k))
  }

  function Children(i: int, data: Data, k: nat): (r: seq<Node>)
    ensures |r| == k && forall j :: 0 <= j < k ==> r[j] == Node(i, 0, true, false, data, [])
  {
    if k == 0 then [] else Children(i, data, k - 1) + [Node(i, 0, true, false, data, [])]
  }

  /** `handle_collective_completion` */
  function Complete(t: Tree, i: int): Tree
    requires 0 <= i < |t.nodes|
    decreases i
  {
    var n := t.nodes[i];
    var dead := t.nodes[i := n.(live := false)];
    if n.parent < 0 || n.parent >= i then t.(nodes := dead, done := t.done + 1, result := n.data, collected := n.got)
    else
      var p := dead[n.parent];
      var p' := p.(data := MergeData(t.op, p.data, n.data), pend := p.pend - 1, got := p.got + n.got);
      var t' := t.(nodes := dead[n.parent := p']);
      if p'.pend <= 0 then Complete(t', n.parent) else t'
  }

  /** The target answers request `i`. */
  function Answered(t: Tree, i: int, d: Data): Tree
    requires 0 <= i < |t.nodes|
  {
    t.(nodes := t.nodes[i := t.nodes[i].(data := d, got := [d])], answered := t.answered + [d])
  }

  /** The collective requests of one root. */
  class Collective {
    const op: Option<Op>
    const size: nat
    var nodes: seq<Node>
    var done: int
    ghost var result: Data
    ghost var collected: seq<Data>
    ghost var answered: seq<Data>

    ghost function View(): Tree
      reads this
    {
      Tree(op, size, nodes, done, result, collected, answered)
    }

    constructor (op: Option<Op>, size: nat, data: Data)
      ensures View() == Tree(op, size, [Node(-1, 0, true, false, data, [])], 0, [], [], [])
    {
      this.op, this.size := op, size;
      nodes, done, result, collected, answered := [Node(-1, 0, true, false, data, [])], 0, [], [], [];
    }

    method ForkRequest(i: int, hops: nat)
      requires 0 <= i < |nodes| && nodes[i].Leaf() && nodes[i].pend == 0
      modifies this`nodes
      ensures View() == Fork(old(View()), i, hops)
    {
      ghost var before := nodes;
      var data := if op.Some? then Identity(op.value, size) else nodes[i].data;
      nodes := nodes[i := nodes[i].(data := data, forked := true)];
      for k := 0 to hops
        invariant nodes == before[i := before[i].(data := data, forked := true, pend := k)] + Children(i, data, k)
      {
        nodes := nodes + [Node(i, 0, true, false, data, [])];
        nodes := nodes[i := nodes[i].(pend := nodes[i].pend + 1)];
      }
    }

    method HandleCollectiveCompletion(i: int)
      requires 0 <= i < |nodes|
      modifies this`nodes, this`done, this`result, this`collected
      ensures View() == Complete(old(View()), i)
      decreases i
    {
      var n := nodes[i];
      nodes := nodes[i := n.(live := false)];
      if n.parent < 0 || n.parent >= i {
        done := done + 1;
        result, collected := n.data, n.got;
        return;
      }
      var p := nodes[n.parent];
      var pending := p.pend - 1;
      nodes := nodes[n.parent := p.(data := MergeData(op, p.data, n.data), pend := pending, got := p.got + n.got)];
      if pending <= 0 {
        HandleCollectiveCompletion(n.parent);
      }
    }
  }

  /** How many live children request `p` has. */
  function Kids(nodes: seq<Node>, p: int): nat {
    if nodes == [] then 0
    else
      var n := nodes[|nodes| - 1];
      Kids(nodes[..|nodes| - 1], p) + if n.live && n.parent == p then 1 else 0
  }

  lemma {:induction false} KidsUpdate(nodes: seq<Node>, j: int, n: Node, p: int)
    requires 0 <= j < |nodes|
    ensures Kids(nodes[j := n], p) + (if nodes[j].live && nodes[j].parent == p then 1 else 0)
         == Kids(nodes, p) + (if n.live && n.parent == p then 1 else 0)
    decreases |nodes|
  {
    var k := |nodes| - 1;
    if j < k {
      KidsUpdate(nodes[..k], j, n, p);
      assert nodes[j := n][..k] == nodes[..k][j := n];
    } else {
      assert nodes[j := n][..k] == nodes[..k];
    }
  }

  lemma {:induction false} KidsExist(nodes: seq<Node>, p: int)
    ensures Kids(nodes, p) > 0 <==> exists k :: 0 <= k < |nodes| && nodes[k].live && nodes[k].parent == p
    decreases |nodes|
  {
    if nodes != [] {
      var n := |nodes| - 1;
      KidsExist(nodes[..n], p);
      if k :| 0 <= k < |nodes| && nodes[k].live && nodes[k].parent == p {
        assert k < n ==> nodes[..n][k] == nodes[k];
      }
      if k :| 0 <= k < n && nodes[..n][k].live && nodes[..n][k].parent == p {
        assert nodes[k] == nodes[..n][k];
      }
    }
  }

  lemma {:induction false} KidsAppend(nodes: seq<Node>, i: int, data: Data, k: nat, p: int)
    ensures Kids(nodes + Children(i, data, k), p) == Kids(nodes, p) + if p == i then k else 0
    decreases k
  {
    var all := nodes + Children(i, data, k);
    if k == 0 {
      assert all == nodes;
    } else {
      assert all[..|all| - 1] == nodes + Children(i, data, k - 1);
      KidsAppend(nodes, i, data, k - 1, p);
    }
  }

  lemma Cancel(a: multiset<Data>, b: multiset<Data>, c: multiset<Data>)
    requires a + c == b + c
    ensures a == b
  {
    assert a == (a + c) - c;
    assert b == (b + c) - c;
  }

  lemma AddNothing(a: multiset<Data>, none: multiset<Data>)
    requires none == multiset{}
    ensures a + none == a && none + a == a
  {
  }

  /** The answers held by live requests. */
  function Pool(nodes: seq<Node>): multiset<Data> {
    if nodes == [] then multiset{}
    else
      var n := nodes[|nodes| - 1];
      Pool(nodes[..|nodes| - 1]) + Held(n)
  }

  function Held(n: Node): multiset<Data> {
    if n.live then multiset(n.got) else multiset{}
  }

  lemma {:induction false} PoolUpdate(nodes: seq<Node>, j: int, n: Node)
    requires 0 <= j < |nodes|
    ensures Pool(nodes[j := n]) + Held(nodes[j]) == Pool(nodes) + Held(n)
    decreases |nodes|
  {
    var k := |nodes| - 1;
    var after := nodes[j := n];
    if j < k {
      PoolUpdate(nodes[..k], j, n);
      assert after[..k] == nodes[..k][j := n];
      Rearrange(Pool(after[..k]), Held(nodes[k]), Held(nodes[j]));
      Rearrange(Pool(nodes[..k]), Held(nodes[k]), Held(n));
    } else {
      assert after[..k] == nodes[..k];
      Rearrange(Pool(nodes[..k]), Held(n), Held(nodes[j]));
    }
  }

  lemma Rearrange(a: multiset<Data>, b: multiset<Data>, c: multiset<Data>)
    ensures a + b + c == a + c + b
  {
  }

  lemma PoolSnoc(nodes: seq<Node>, n: Node)
    ensures Pool(nodes + [n]) == Pool(nodes) + Held(n)
  {
    assert (nodes + [n])[..|nodes|] == nodes;
  }

  lemma {:induction false} PoolAppend(nodes: seq<Node>, more: seq<Node>)
    requires forall k :: 0 <= k < |more| ==> more[k].got == []
    ensures Pool(nodes + more) == Pool(nodes)
    decreases |more|
  {
    if more == [] {
      assert nodes + more == nodes;
    } else {
      var init, last := more[..|more| - 1], more[|more| - 1];
      PoolAppend(nodes, init);
      PoolSnoc(nodes + init, last);
      AddNothing(Pool(nodes), Held(last));
      assert nodes + more == nodes + init + [last];
    }
  }

  lemma {:induction false} PoolEmpty(nodes: seq<Node>)
    requires forall k :: 0 <= k < |nodes| ==> !nodes[k].live
    ensures Pool(nodes) == multiset{}
    decreases |nodes|
  {
    if nodes != [] {
      PoolEmpty(nodes[..|nodes| - 1]);
    }
  }

  /** Live requests hang off live, earlier fork points. */
  predicate Linked(nodes: seq<Node>, k: int)
    requires 0 <= k < |nodes|
  {
    var n := nodes[k];
    n.live ==> if k == 0 then n.parent == -1 else 0 <= n.parent < k && nodes[n.parent].live && nodes[n.parent].forked
  }

  /** A request counts its live children, and a fork point holds the reduction of what it got. */
  predicate Counted(t: Tree, k: int)
    requires 0 <= k < |t.nodes|
  {
    var n := t.nodes[k];
    n.live ==> n.pend == Kids(t.nodes, k) && if n.forked then Holds(t.op, n.data, n.got, t.size) else n.pend == 0
  }

  /** `i` is the request that has just got its last answer, if any; all others still wait. */
  ghost predicate InvBut(t: Tree, i: int) {
    && t.nodes != []
    && (forall k :: 0 <= k < |t.nodes| ==> Linked(t.nodes, k) && Counted(t, k))
    && (forall k :: 0 <= k < |t.nodes| && k != i && t.nodes[k].live ==>
          if t.nodes[k].forked then t.nodes[k].pend > 0 else t.nodes[k].got == [])
    && (t.op.Some? ==> AllOk(t.op.value, t.answered, t.size))
    && t.done == (if t.nodes[0].live then 0 else 1)
    && (if t.nodes[0].live then Pool(t.nodes) == multiset(t.answered) else multiset(t.collected) == multiset(t.answered))
  }

  ghost predicate Inv(t: Tree) {
    InvBut(t, -1) && (!t.nodes[0].live ==> Final(t))
  }

  /** The root's result is the reduction of all answers. */
  ghost predicate Final(t: Tree) {
    && t.collected != [] && t.nodes != []
    && if t.nodes[0].forked then Holds(t.op, t.result, t.collected, t.size) else t.collected == [t.result]
  }

  /** Request `i` is complete. */
  predicate Ready(t: Tree, i: int)
    requires 0 <= i < |t.nodes|
  {
    var n := t.nodes[i];
    n.live && n.pend == 0 && n.got != [] && ValueOk(t.op, n.data, t.size) && (n.forked || n.got == [n.data])
  }

  lemma ForkKids(t: Tree, i: int, k: nat, p: int)
    requires 0 <= i < |t.nodes|
    ensures Kids(Fork(t, i, k).nodes, p) == Kids(t.nodes, p) + if p == i then k else 0
  {
    var u := Fork(t, i, k);
    KidsUpdate(t.nodes, i, u.nodes[i], p);
    KidsAppend(t.nodes[i := u.nodes[i]], i, u.nodes[i].data, k, p);
  }

  lemma ForkPool(t: Tree, i: int, k: nat)
    requires 0 <= i < |t.nodes|
    ensures Pool(Fork(t, i, k).nodes) == Pool(t.nodes)
  {
    var u := Fork(t, i, k);
    var mid := t.nodes[i := u.nodes[i]];
    PoolUpdate(t.nodes, i, u.nodes[i]);
    Cancel(Pool(mid), Pool(t.nodes), Held(t.nodes[i]));
    PoolAppend(mid, Children(i, u.nodes[i].data, k));
  }

  lemma ForkNode(t: Tree, i: int, k: nat, j: int)
    requires Inv(t) && 0 <= i < |t.nodes| && t.nodes[i].Leaf() && 0 <= j < |t.nodes| + k
    ensures Linked(Fork(t, i, k).nodes, j) && Counted(Fork(t, i, k), j)
  {
    ForkKids(t, i, k, j);
    if j < |t.nodes| {
      assert Linked(t.nodes, j) && Counted(t, j);
      if j == i && t.op.Some? {
        assert [Identity(t.op.value, t.size)] + [] == [Identity(t.op.value, t.size)];
      }
    } else {
      NoKidsYet(t, j);
    }
  }

  lemma ForkKeeps(t: Tree, i: int, k: nat)
    requires Inv(t) && 0 <= i < |t.nodes| && t.nodes[i].Leaf() && k >= 2
    ensures Inv(Fork(t, i, k))
  {
    LiveRoot(t, i);
    ForkPool(t, i, k);
    forall j | 0 <= j < |t.nodes| + k ensures Linked(Fork(t, i, k).nodes, j) && Counted(Fork(t, i, k), j) {
      ForkNode(t, i, k, j);
    }
  }

  lemma NoKidsYet(t: Tree, j: int)
    requires InvBut(t, -1) && j >= |t.nodes|
    ensures Kids(t.nodes, j) == 0
  {
    KidsExist(t.nodes, j);
    forall k | 0 <= k < |t.nodes| && t.nodes[k].live ensures t.nodes[k].parent != j {
      assert Linked(t.nodes, k);
    }
  }

  lemma AnswerCounts(t: Tree, i: int, d: Data)
    requires Inv(t) && 0 <= i < |t.nodes| && t.nodes[i].Leaf() && ValueOk(t.op, d, t.size)
    ensures
      var u := Answered(t, i, d);
      forall j :: 0 <= j < |u.nodes| ==> Linked(u.nodes, j) && Counted(u, j)
  {
    var u := Answered(t, i, d);
    forall j | 0 <= j < |u.nodes| ensures Linked(u.nodes, j) && Counted(u, j) {
      KidsUpdate(t.nodes, i, u.nodes[i], j);
      assert Linked(t.nodes, j) && Counted(t, j);
    }
  }

  lemma AnswerReady(t: Tree, i: int, d: Data)
    requires Inv(t) && 0 <= i < |t.nodes| && t.nodes[i].Leaf() && ValueOk(t.op, d, t.size)
    ensures InvBut(Answered(t, i, d), i) && Ready(Answered(t, i, d), i)
  {
    var u := Answered(t, i, d);
    AnswerCounts(t, i, d);
    PoolUpdate(t.nodes, i, u.nodes[i]);
    assert multiset(u.answered) == multiset(t.answered) + multiset{d};
    assert Counted(t, i) && Linked(t.nodes, i);
    LiveRoot(t, i);
  }

  /** As long as any request is live, so is the root. */
  lemma {:induction false} LiveRoot(t: Tree, k: int)
    requires t.nodes != [] && (forall j :: 0 <= j < |t.nodes| ==> Linked(t.nodes, j))
    requires 0 <= k < |t.nodes| && t.nodes[k].live
    ensures t.nodes[0].live
    decreases k
  {
    assert Linked(t.nodes, k);
    if k > 0 {
      LiveRoot(t, t.nodes[k].parent);
    }
  }

  /** A live request below the root means a live child of the root. */
  lemma {:induction false} RootHasKid(t: Tree, k: int)
    requires t.nodes != [] && (forall j :: 0 <= j < |t.nodes| ==> Linked(t.nodes, j))
    requires 0 < k < |t.nodes| && t.nodes[k].live
    ensures Kids(t.nodes, 0) > 0
    decreases k
  {
    assert Linked(t.nodes, k);
    if t.nodes[k].parent == 0 {
      KidsExist(t.nodes, 0);
    } else {
      RootHasKid(t, t.nodes[k].parent);
    }
  }

  lemma MergeHolds(t: Tree, p: Node, n: Node)
    requires Holds(t.op, p.data, p.got, t.size) && n.got != [] && ValueOk(t.op, n.data, t.size)
    requires if n.forked then Holds(t.op, n.data, n.got, t.size) else n.got == [n.data]
    ensures Holds(t.op, MergeData(t.op, p.data, n.data), p.got + n.got, t.size)
    ensures ValueOk(t.op, MergeData(t.op, p.data, n.data), t.size)
  {
    if t.op.Some? {
      MergeOk(t.op.value, p.data, n.data, t.size);
      if n.forked {
        FoldFromConcat(t.op.value, p.got, n.got, t.size);
      } else {
        FoldFromAppend(t.op.value, p.got, n.data, t.size);
      }
    }
  }

  lemma CompleteRoot(t: Tree)
    requires InvBut(t, 0) && Ready(t, 0)
    ensures Inv(Complete(t, 0))
  {
    var u := Complete(t, 0);
    assert Linked(t.nodes, 0) && Counted(t, 0);
    forall k | 0 <= k < |u.nodes| ensures !u.nodes[k].live {
      if k > 0 && t.nodes[k].live {
        RootHasKid(t, k);
      }
    }
    PoolUpdate(t.nodes, 0, u.nodes[0]);
    PoolEmpty(u.nodes);
    AddNothing(Pool(t.nodes), Held(u.nodes[0]));
    AddNothing(Held(t.nodes[0]), Pool(u.nodes));
  }

  /** The tree after request `i` has been merged into its parent. */
  function Joined(t: Tree, i: int): Tree
    requires 0 <= i < |t.nodes| && 0 <= t.nodes[i].parent < i
  {
    var n, p := t.nodes[i], t.nodes[t.nodes[i].parent];
    t.(nodes := t.nodes[i := n.(live := false)]
                [n.parent := p.(data := MergeData(t.op, p.data, n.data), pend := p.pend - 1, got := p.got + n.got)])
  }

  lemma JoinedKids(t: Tree, i: int, q: int)
    requires 0 <= i < |t.nodes| && 0 <= t.nodes[i].parent < i && t.nodes[i].live
    ensures Kids(Joined(t, i).nodes, q) == Kids(t.nodes, q) - if q == t.nodes[i].parent then 1 else 0
  {
    var p := t.nodes[i].parent;
    var dead := t.nodes[i := t.nodes[i].(live := false)];
    KidsUpdate(t.nodes, i, dead[i], q);
    KidsUpdate(dead, p, Joined(t, i).nodes[p], q);
  }

  lemma JoinedPool(t: Tree, i: int)
    requires 0 <= i < |t.nodes| && 0 <= t.nodes[i].parent < i && t.nodes[i].live && t.nodes[t.nodes[i].parent].live
    ensures Pool(Joined(t, i).nodes) == Pool(t.nodes)
  {
    var p := t.nodes[i].parent;
    var dead := t.nodes[i := t.nodes[i].(live := false)];
    PoolUpdate(t.nodes, i, dead[i]);
    PoolUpdate(dead, p, Joined(t, i).nodes[p]);
    var mine, others := Held(t.nodes[i]), Held(t.nodes[p]);
    AddNothing(Pool(t.nodes), Held(dead[i]));
    assert Held(Joined(t, i).nodes[p]) == others + mine;
    assert Pool(dead) + (others + mine) == Pool(dead) + mine + others;
    Cancel(Pool(Joined(t, i).nodes), Pool(t.nodes), others);
  }

  lemma JoinedNode(t: Tree, i: int, k: int)
    requires InvBut(t, i) && 0 < i < |t.nodes| && Ready(t, i) && 0 <= k < |t.nodes| && 0 <= t.nodes[i].parent < i
    ensures Linked(Joined(t, i).nodes, k) && Counted(Joined(t, i), k)
  {
    var p := t.nodes[i].parent;
    assert Linked(t.nodes, i) && Counted(t, i) && Linked(t.nodes, k) && Counted(t, k) && Counted(t, p);
    KidsExist(t.nodes, i);
    JoinedKids(t, i, k);
    MergeHolds(t, t.nodes[p], t.nodes[i]);
  }

  /** Merging a complete request leaves its parent as the only one that may be complete. */
  lemma JoinedKeeps(t: Tree, i: int)
    requires 0 < i < |t.nodes| && InvBut(t, i) && Ready(t, i)
    ensures 0 <= t.nodes[i].parent < i
    ensures
      var p := t.nodes[i].parent;
      && InvBut(Joined(t, i), p)
      && (if Joined(t, i).nodes[p].pend <= 0 then Ready(Joined(t, i), p) else InvBut(Joined(t, i), -1))
      && Joined(t, i).nodes[0].live
  {
    assert Linked(t.nodes, i) && Counted(t, i);
    var p := t.nodes[i].parent;
    LiveRoot(t, i);
    assert Linked(t.nodes, p) && Counted(t, p);
    forall k | 0 <= k < |t.nodes| ensures Linked(Joined(t, i).nodes, k) && Counted(Joined(t, i), k) {
      JoinedNode(t, i, k);
    }
    JoinedPool(t, i);
    MergeHolds(t, t.nodes[p], t.nodes[i]);
  }

  /** Completing a request keeps the tree consistent, up to the root. */
  lemma {:induction false} CompleteKeeps(t: Tree, i: int)
    requires 0 <= i < |t.nodes| && InvBut(t, i) && Ready(t, i)
    ensures Inv(Complete(t, i))
    decreases i
  {
    if i == 0 {
      CompleteRoot(t);
    } else {
      JoinedKeeps(t, i);
      if Joined(t, i).nodes[t.nodes[i].parent].pend <= 0 {
        CompleteKeeps(Joined(t, i), t.nodes[i].parent);
      }
    }
  }

  datatype Event = Forks(i: int, hops: nat) | Answers(i: int, d: Data)

  function After(t: Tree, e: Event): Tree
    requires 0 <= e.i < |t.nodes|
  {
    match e
    case Forks(i, hops) => Fork(t, i, hops)
    case Answers(i, d) => Complete(Answered(t, i, d), i)
  }

  /** Requests in flight are forked to several next hops, or answered by a target. */
  predicate Allowed(t: Tree, e: Event) {
    && 0 <= e.i < |t.nodes| && t.nodes[e.i].Leaf()
    && match e
       case Forks(_, hops) => hops >= 2
       case Answers(_, d) => ValueOk(t.op, d, t.size)
  }

  ghost predicate IsRun(ts: seq<Tree>, events: seq<Event>) {
    && |ts| == |events| + 1
    && (exists data :: ts[0] == Tree(ts[0].op, ts[0].size, [Node(-1, 0, true, false, data, [])], 0, [], [], []))
    && forall k :: 0 <= k < |events| ==> RunStep(ts, events, k)
  }

  predicate RunStep(ts: seq<Tree>, events: seq<Event>, k: int)
    requires 0 <= k < |events| && |ts| == |events| + 1
  {
    Allowed(ts[k], events[k]) && ts[k + 1] == After(ts[k], events[k])
  }

  lemma StartOk(t: Tree, data: Data)
    requires t == Tree(t.op, t.size, [Node(-1, 0, true, false, data, [])], 0, [], [], [])
    ensures Inv(t)
  {
    assert t.nodes[..0] == [];
    assert Linked(t.nodes, 0) && Counted(t, 0);
  }

  lemma {:induction false} AllRunsKeepInv(ts: seq<Tree>, events: seq<Event>, k: nat)
    requires IsRun(ts, events) && k < |ts|
    ensures Inv(ts[k])
  {
    if k == 0 {
      var data :| ts[0] == Tree(ts[0].op, ts[0].size, [Node(-1, 0, true, false, data, [])], 0, [], [], []);
      StartOk(ts[0], data);
    } else {
      AllRunsKeepInv(ts, events, k - 1);
      assert RunStep(ts, events, k - 1);
      match events[k - 1]
      case Forks(i, hops) => ForkKeeps(ts[k - 1], i, hops);
      case Answers(i, d) =>
        AnswerReady(ts[k - 1], i, d);
        CompleteKeeps(Answered(ts[k - 1], i, d), i);
    }
  }

  /** What a request with no answer yet carries: the root's data, or the identity once a reduction forked. */
  predicate CarriesAt(t: Tree, data: Data, i: int)
    requires 0 <= i < |t.nodes|
  {
    var n := t.nodes[i];
    n.got == [] ==> n.data == if t.op.Some? && (i > 0 || n.forked) then Identity(t.op.value, t.size) else data
  }

  ghost predicate Carries(t: Tree, data: Data) {
    |t.nodes| > 0 && forall i :: 0 <= i < |t.nodes| ==> CarriesAt(t, data, i)
  }

  lemma AnsweredCarries(t: Tree, i: int, n: Node, data: Data)
    requires Carries(t, data) && 0 <= i < |t.nodes| && n.got != []
    ensures Carries(t.(nodes := t.nodes[i := n]), data)
  {
    var t' := t.(nodes := t.nodes[i := n]);
    forall j | 0 <= j < |t.nodes| ensures CarriesAt(t', data, j) {
      assert CarriesAt(t, data, j);
    }
  }

  lemma {:induction false} CompleteCarries(t: Tree, i: int, data: Data)
    requires Carries(t, data) && 0 <= i < |t.nodes| && t.nodes[i].got != []
    ensures Carries(Complete(t, i), data)
    decreases i
  {
    var n := t.nodes[i];
    var dead := t.(nodes := t.nodes[i := n.(live := false)]);
    AnsweredCarries(t, i, n.(live := false), data);
    if n.parent < 0 || n.parent >= i {
      forall j | 0 <= j < |t.nodes| ensures CarriesAt(Complete(t, i), data, j) {
        assert CarriesAt(dead, data, j);
      }
    } else {
      var p := dead.nodes[n.parent];
      var p' := p.(data := MergeData(t.op, p.data, n.data), pend := p.pend - 1, got := p.got + n.got);
      AnsweredCarries(dead, n.parent, p', data);
      if p'.pend <= 0 {
        CompleteCarries(dead.(nodes := dead.nodes[n.parent := p']), n.parent, data);
      }
    }
  }

  /** In every run, each copy of a multicast carries the data of its root, and each copy of a reduction
      the identity, until it is answered. */
  lemma {:induction false} CopiesCarryData(ts: seq<Tree>, events: seq<Event>, k: nat)
    requires IsRun(ts, events) && k < |ts|
    ensures |ts[0].nodes| > 0 && Carries(ts[k], ts[0].nodes[0].data)
  {
    if k > 0 {
      CopiesCarryData(ts, events, k - 1);
      assert RunStep(ts, events, k - 1);
      var t, data := ts[k - 1], ts[0].nodes[0].data;
      match events[k - 1]
      case Forks(i, hops) =>
        assert CarriesAt(t, data, i);
        forall j | 0 <= j < |ts[k].nodes| ensures CarriesAt(ts[k], data, j) {
          assert j < |t.nodes| ==> CarriesAt(t, data, j);
        }
      case Answers(i, d) =>
        AnsweredCarries(t, i, t.nodes[i].(data := d, got := [d]), data);
        forall j | 0 <= j < |t.nodes| ensures CarriesAt(Answered(t, i, d), data, j) {
          assert CarriesAt(t.(nodes := Answered(t, i, d).nodes), data, j);
        }
        CompleteCarries(Answered(t, i, d), i, data);
    }
  }

  /** A live fork point has a live child allocated after it. */
  lemma ForkHasKid(t: Tree, i: int) returns (k: int)
    requires Inv(t) && 0 <= i < |t.nodes| && t.nodes[i].live && t.nodes[i].forked
    ensures i < k < |t.nodes| && t.nodes[k].live
  {
    assert Counted(t, i);
    KidsExist(t.nodes, i);
    k :| 0 <= k < |t.nodes| && t.nodes[k].live && t.nodes[k].parent == i;
    assert Linked(t.nodes, k);
  }

  lemma {:induction false} LeafBelow(t: Tree, i: int) returns (k: int)
    requires Inv(t) && 0 <= i < |t.nodes| && t.nodes[i].live
    ensures 0 <= k < |t.nodes| && t.nodes[k].Leaf()
    decreases |t.nodes| - i
  {
    k := i;
    if t.nodes[i].forked {
      var j := ForkHasKid(t, i);
      k := LeafBelow(t, j);
    }
  }

  /** The root completes once, and exactly when no copy is in flight any more; it then holds the
      reduction of all answers, in whatever order they came. */
  lemma RootCompletesOnce(ts: seq<Tree>, events: seq<Event>, k: nat)
    requires IsRun(ts, events) && k < |ts|
    ensures
      var t := ts[k];
      && 0 <= t.done <= 1
      && (t.done == 1 <==> forall i :: 0 <= i < |t.nodes| ==> !t.nodes[i].Leaf())
      && (t.done == 1 ==> forall i :: 0 <= i < |t.nodes| ==> !t.nodes[i].live)
      && (t.done == 1 && t.nodes != [] && t.nodes[0].forked ==> Holds(t.op, t.result, t.answered, t.size))
      && (t.done == 1 && t.nodes != [] && t.nodes[0].forked && t.op.Some? && t.answered != [] ==>
            Reduces(t.op.value, t.answered, t.result, t.size))
      && (t.done == 1 && t.nodes != [] && !t.nodes[0].forked ==> t.answered == [t.result])
  {
    AllRunsKeepInv(ts, events, k);
    var t := ts[k];
    if t.nodes[0].live {
      var i := LeafBelow(t, 0);
    } else {
      forall i | 0 <= i < |t.nodes| ensures !t.nodes[i].live {
        if t.nodes[i].live {
          LiveRoot(t, i);
        }
      }
      if t.op.Some? && t.nodes[0].forked {
        FoldFromAnyOrder(t.op.value, t.collected, t.answered, t.size);
        if t.answered != [] {
          FoldFromReduces(t.op.value, t.answered, t.size);
        }
      }
      if !t.nodes[0].forked {
        SameSize(t.collected, t.answered);
      }
    }
  }
}
