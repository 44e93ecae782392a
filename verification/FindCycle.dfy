/** `_find_cycle` (pulp/floonoc_v2/floonoc_v2_routing.py): the iterative three-colour
    depth-first search over the channel dependency graph. */
module FindCycle {
  import opened Wrappers
  import opened Digraph

  /** A directed link between two nodes. */
  type Channel = (int, int)

  predicate ChannelLess(a: Channel, b: Channel) {
    a.0 < b.0 || (a.0 == b.0 && a.1 < b.1)
  }

  datatype Color = Grey | Black

  /** One stack entry: a node and the children its iterator has still to yield. */
  datatype Frame = Frame(node: Channel, rest: seq<Channel>)

  /** The smallest channel of a non-empty set. */
  ghost predicate IsLeast(s: set<Channel>, m: Channel) {
    m in s && forall x :: x in s && x != m ==> ChannelLess(m, x)
  }

  lemma {:induction false} LeastExists(s: set<Channel>)
    requires s != {}
    ensures exists m :: IsLeast(s, m)
  {
    var x :| x in s;
    var t := s - {x};
    if t == {} {
      assert forall y :: y in s ==> y == x || y in t;
      assert IsLeast(s, x);
    } else {
      LeastExists(t);
      var m :| IsLeast(t, m);
      assert forall y :: y in s ==> y == x || y in t;
      assert IsLeast(s, if ChannelLess(x, m) then x else m);
    }
  }

  /** `sorted(s)` for a set of channels. */
  function Sorted(s: set<Channel>): (r: seq<Channel>)
    ensures forall x :: x in r <==> x in s
    ensures forall i, j :: 0 <= i < j < |r| ==> ChannelLess(r[i], r[j])
  {
    if s == {} then []
    else
      LeastExists(s);
      var m :| m in s && forall x :: x in s && x != m ==> ChannelLess(m, x);
      var tail := Sorted(s - {m});
      assert forall x :: x in tail ==> x in s && x != m;
      [m] + tail
  }

  function Children(deps: Graph<Channel>, c: Channel): seq<Channel> {
    if c in deps then Sorted(deps[c]) else []
  }

  /** Everything the search can meet. */
  ghost function Nodes(deps: Graph<Channel>): set<Channel> {
    deps.Keys + set a, b | a in deps && b in deps[a] :: b
  }

  ghost function StackWork(stack: seq<Frame>): nat {
    if stack == [] then 0
    else StackWork(stack[..|stack| - 1]) + |stack[|stack| - 1].rest| + 1
  }

  /** Entry `i` was reached from the entry below it. */
  ghost predicate Linked(deps: Graph<Channel>, stack: seq<Frame>, parent: map<Channel, Channel>, i: nat)
    requires i < |stack|
  {
    i > 0 ==>
      && stack[i].node in parent && parent[stack[i].node] == stack[i - 1].node
      && Edge(deps, stack[i - 1].node, stack[i].node)
  }

  ghost predicate OnStack(stack: seq<Frame>, c: Channel) {
    exists i :: 0 <= i < |stack| && stack[i].node == c
  }

  /** The stack is a path of distinct grey nodes linked by `parent`. */
  ghost predicate StackOk(deps: Graph<Channel>, stack: seq<Frame>, color: map<Channel, Color>,
                          parent: map<Channel, Channel>)
  {
    && (forall i :: 0 <= i < |stack| ==> Linked(deps, stack, parent, i))
    && (forall i, j :: 0 <= i < j < |stack| ==> stack[i].node != stack[j].node)
    && (forall c :: c in color && color[c] == Grey <==> OnStack(stack, c))
  }

  /** A child of entry `i` that its iterator has yielded is finished, or is the next entry. */
  ghost predicate FrameOk(deps: Graph<Channel>, stack: seq<Frame>, color: map<Channel, Color>, i: nat)
    requires i < |stack|
  {
    && (forall c :: c in stack[i].rest ==> Edge(deps, stack[i].node, c))
    && (forall c :: Edge(deps, stack[i].node, c) ==>
          || c in stack[i].rest
          || (c in color && color[c] == Black)
          || (i + 1 < |stack| && c == stack[i + 1].node))
  }

  ghost predicate FramesOk(deps: Graph<Channel>, stack: seq<Frame>, color: map<Channel, Color>) {
    forall i :: 0 <= i < |stack| ==> FrameOk(deps, stack, color, i)
  }

  /** Finished nodes have only finished successors, finished before them. */
  ghost predicate BlackOk(deps: Graph<Channel>, color: map<Channel, Color>, finish: map<Channel, int>) {
    && (forall a :: a in color && color[a] == Black <==> a in finish)
    && (forall a, b :: a in finish && Edge(deps, a, b) ==> b in finish && finish[b] < finish[a])
  }

  ghost predicate Inv(deps: Graph<Channel>, stack: seq<Frame>, color: map<Channel, Color>,
                      parent: map<Channel, Channel>, finish: map<Channel, int>, clock: int)
  {
    && color.Keys <= Nodes(deps)
    && StackOk(deps, stack, color, parent)
    && FramesOk(deps, stack, color)
    && BlackOk(deps, color, finish)
    && (forall a :: a in finish ==> finish[a] < clock)
  }

  /** Invariants of the entries below the top survive when the top is replaced. */
  lemma PrefixKept(deps: Graph<Channel>, stack: seq<Frame>, s': seq<Frame>, color: map<Channel, Color>,
                   color': map<Channel, Color>, parent: map<Channel, Channel>, parent': map<Channel, Channel>, i: nat)
    requires StackOk(deps, stack, color, parent) && FramesOk(deps, stack, color)
    requires i + 1 < |stack| && i < |s'| && s'[..i + 1] == stack[..i + 1]
    requires forall k :: 0 <= k < |stack| ==> stack[k].node in parent ==>
               stack[k].node in parent' && parent'[stack[k].node] == parent[stack[k].node]
    requires forall c :: c in color && color[c] == Black ==> c in color' && color'[c] == Black
    requires
      || (i + 1 < |s'| && s'[i + 1].node == stack[i + 1].node)
      || (stack[i + 1].node in color' && color'[stack[i + 1].node] == Black)
    ensures Linked(deps, s', parent', i) && FrameOk(deps, s', color', i)
  {
    assert Linked(deps, stack, parent, i) && FrameOk(deps, stack, color, i);
    assert s'[i] == s'[..i + 1][i] == stack[..i + 1][i] == stack[i];
    if i > 0 {
      assert s'[i - 1] == s'[..i + 1][i - 1] == stack[..i + 1][i - 1] == stack[i - 1];
    }
  }

  lemma RestShrinks(rest: seq<Channel>)
    requires rest != []
    ensures forall c :: c in rest <==> c == rest[0] || c in rest[1..]
  {
    assert rest == [rest[0]] + rest[1..];
  }

  lemma SameNodesOnStack(s: seq<Frame>, t: seq<Frame>)
    requires |s| == |t| && forall i :: 0 <= i < |s| ==> s[i].node == t[i].node
    ensures forall c :: OnStack(s, c) <==> OnStack(t, c)
  {
    forall c ensures OnStack(s, c) <==> OnStack(t, c) {
      if OnStack(s, c) {
        var i :| 0 <= i < |s| && s[i].node == c;
        assert t[i].node == c;
      }
      if OnStack(t, c) {
        var i :| 0 <= i < |t| && t[i].node == c;
        assert s[i].node == c;
      }
    }
  }

  lemma OnStackPush(stack: seq<Frame>, f: Frame)
    ensures forall c :: OnStack(stack + [f], c) <==> OnStack(stack, c) || c == f.node
  {
    var s' := stack + [f];
    forall c ensures OnStack(s', c) <==> OnStack(stack, c) || c == f.node {
      if OnStack(stack, c) {
        var i :| 0 <= i < |stack| && stack[i].node == c;
        assert s'[i].node == c;
      }
      assert s'[|stack|].node == f.node;
      if OnStack(s', c) && c != f.node {
        var i :| 0 <= i < |s'| && s'[i].node == c;
        assert stack[i].node == c;
      }
    }
  }

  /** The top node has no child left: it becomes black. */
  lemma {:induction false} PopKeepsInv(deps: Graph<Channel>, stack: seq<Frame>, color: map<Channel, Color>,
      parent: map<Channel, Channel>, finish: map<Channel, int>, clock: int)
    requires stack != [] && Inv(deps, stack, color, parent, finish, clock)
    requires stack[|stack| - 1].rest == []
    ensures
      var top := |stack| - 1;
      var node := stack[top].node;
      Inv(deps, stack[..top], color[node := Black], parent, finish[node := clock], clock + 1)
  {
    var top := |stack| - 1;
    var node := stack[top].node;
    var color', finish' := color[node := Black], finish[node := clock];
    assert OnStack(stack, node);
    assert FrameOk(deps, stack, color, top);
    forall i | 0 <= i < top ensures Linked(deps, stack[..top], parent, i) && FrameOk(deps, stack[..top], color', i) {
      PrefixKept(deps, stack, stack[..top], color, color', parent, parent, i);
    }
    assert stack == stack[..top] + [stack[top]];
    OnStackPush(stack[..top], stack[top]);
    forall c ensures c in color' && color'[c] == Grey <==> OnStack(stack[..top], c) {
      assert node != c || forall i :: 0 <= i < top ==> stack[..top][i].node != c;
    }
  }

  /** The next child of the top node is black already. */
  lemma {:induction false} SkipKeepsInv(deps: Graph<Channel>, stack: seq<Frame>, color: map<Channel, Color>,
      parent: map<Channel, Channel>, finish: map<Channel, int>, clock: int)
    requires stack != [] && Inv(deps, stack, color, parent, finish, clock)
    requires stack[|stack| - 1].rest != []
    requires stack[|stack| - 1].rest[0] in color && color[stack[|stack| - 1].rest[0]] == Black
    ensures Inv(deps, Advanced(stack), color, parent, finish, clock)
  {
    var s', top := Advanced(stack), |stack| - 1;
    SameNodesOnStack(stack, s');
    RestShrinks(stack[top].rest);
    assert Linked(deps, stack, parent, top) && FrameOk(deps, stack, color, top);
    forall i | 0 <= i < |stack| ensures Linked(deps, s', parent, i) && FrameOk(deps, s', color, i) {
      if i < top {
        PrefixKept(deps, stack, s', color, color, parent, parent, i);
      }
    }
  }

  /** The stack once the next child of its top entry, a white node, is pushed. */
  function Pushed(deps: Graph<Channel>, stack: seq<Frame>): seq<Frame>
    requires stack != [] && stack[|stack| - 1].rest != []
  {
    var child := stack[|stack| - 1].rest[0];
    Advanced(stack) + [Frame(child, Children(deps, child))]
  }

  lemma {:induction false} PushKeepsStack(deps: Graph<Channel>, stack: seq<Frame>, color: map<Channel, Color>,
      parent: map<Channel, Channel>, child: Channel)
    requires stack != [] && StackOk(deps, stack, color, parent)
    requires stack[|stack| - 1].rest != [] && stack[|stack| - 1].rest[0] == child
    requires child !in color && Edge(deps, stack[|stack| - 1].node, child)
    ensures StackOk(deps, Pushed(deps, stack), color[child := Grey], parent[child := stack[|stack| - 1].node])
  {
    var n, s' := |stack|, Pushed(deps, stack);
    SameNodesOnStack(stack, Advanced(stack));
    OnStackPush(Advanced(stack), s'[n]);
    forall k | 0 <= k < n ensures stack[k].node == s'[k].node != child {
      assert OnStack(stack, stack[k].node);
    }
    var parent' := parent[child := stack[n - 1].node];
    forall i | 0 <= i < |s'| ensures Linked(deps, s', parent', i) {
      assert i < n ==> Linked(deps, stack, parent, i);
    }
  }

  lemma {:induction false} PushKeepsFrames(deps: Graph<Channel>, stack: seq<Frame>, color: map<Channel, Color>,
      child: Channel)
    requires stack != [] && FramesOk(deps, stack, color)
    requires stack[|stack| - 1].rest != [] && stack[|stack| - 1].rest[0] == child && child !in color
    ensures FramesOk(deps, Pushed(deps, stack), color[child := Grey])
  {
    var n, s' := |stack|, Pushed(deps, stack);
    RestShrinks(stack[n - 1].rest);
    var color' := color[child := Grey];
    forall i | 0 <= i < |s'| ensures FrameOk(deps, s', color', i) {
      if i < n {
        assert FrameOk(deps, stack, color, i);
        assert s'[i].node == stack[i].node && (i + 1 < n ==> s'[i] == stack[i] && s'[i + 1].node == stack[i + 1].node);
      }
    }
  }

  /** The next child of the top node is white: it is pushed. */
  lemma {:induction false} PushKeepsInv(deps: Graph<Channel>, stack: seq<Frame>, color: map<Channel, Color>,
      parent: map<Channel, Channel>, finish: map<Channel, int>, clock: int, child: Channel)
    requires stack != [] && Inv(deps, stack, color, parent, finish, clock)
    requires stack[|stack| - 1].rest != [] && stack[|stack| - 1].rest[0] == child
    requires child !in color && Edge(deps, stack[|stack| - 1].node, child)
    ensures Inv(deps, Pushed(deps, stack), color[child := Grey], parent[child := stack[|stack| - 1].node], finish, clock)
  {
    PushKeepsStack(deps, stack, color, parent, child);
    PushKeepsFrames(deps, stack, color, child);
  }

  /** The search starts again from a white node, with an empty stack. */
  lemma {:induction false} StartKeepsInv(deps: Graph<Channel>, color: map<Channel, Color>,
      parent: map<Channel, Channel>, finish: map<Channel, int>, clock: int, start: Channel)
    requires Inv(deps, [], color, parent, finish, clock) && start !in color && start in deps
    ensures Inv(deps, [Frame(start, Children(deps, start))], color[start := Grey], parent, finish, clock)
  {
    var stack := [Frame(start, Children(deps, start))];
    OnStackPush([], stack[0]);
    assert [] + stack == stack;
  }

  /** The stack after the iterator of its top entry has yielded one child. */
  function Advanced(stack: seq<Frame>): seq<Frame>
    requires stack != [] && stack[|stack| - 1].rest != []
  {
    var top := |stack| - 1;
    stack[..top] + [Frame(stack[top].node, stack[top].rest[1..])]
  }

  /** The inner `while`: everything reachable from a white node is searched. */
  method Visit(deps: Graph<Channel>, start: Channel, color: map<Channel, Color>, parent: map<Channel, Channel>,
               ghost finish: map<Channel, int>, ghost clock: int)
    returns (r: Option<seq<Channel>>, color': map<Channel, Color>, parent': map<Channel, Channel>,
             ghost finish': map<Channel, int>, ghost clock': int)
    requires Inv(deps, [], color, parent, finish, clock) && start !in color && start in deps
    ensures r.Some? ==> IsCycle(deps, r.value) && Distinct(r.value)
    ensures r.None? ==> Inv(deps, [], color', parent', finish', clock')
    ensures r.None? ==> color.Keys + {start} <= color'.Keys
  {
    StartKeepsInv(deps, color, parent, finish, clock, start);
    var stack := [Frame(start, Children(deps, start))];
    color', parent', finish', clock' := color[start := Grey], parent, finish, clock;
    while stack != []
      invariant Inv(deps, stack, color', parent', finish', clock')
      invariant color.Keys + {start} <= color'.Keys
      decreases Nodes(deps) - color'.Keys, StackWork(stack)
    {
      var top := |stack| - 1;
      var node, rest := stack[top].node, stack[top].rest;
      if rest == [] {
        PopKeepsInv(deps, stack, color', parent', finish', clock');
        color' := color'[node := Black];
        stack := stack[..top];
        finish' := finish'[node := clock'];
        clock' := clock' + 1;
        continue;
      }
      var child := rest[0];
      assert FrameOk(deps, stack, color', top);
      if child in color' && color'[child] == Grey {
        var cycle := CollectCycle(deps, stack, color', parent', child);
        r := Some(cycle);
        return;
      }
      if child !in color' {
        PushKeepsInv(deps, stack, color', parent', finish', clock', child);
        ghost var before := color'.Keys;
        stack := Pushed(deps, stack);
        parent' := parent'[child := node];
        color' := color'[child := Grey];
        assert child in Nodes(deps) - before;
      } else {
        SkipKeepsInv(deps, stack, color', parent', finish', clock');
        stack := Advanced(stack);
      }
    }
    r := None;
  }

  /** `_find_cycle`: returns a simple cycle of `deps`, or None exactly when there is none;
      then the finish order `rank` decreases along every edge. `keys` is the iteration order
      of the dictionary. */
  method FindCycle(keys: seq<Channel>, deps: Graph<Channel>)
    returns (r: Option<seq<Channel>>, ghost rank: map<Channel, int>)
    requires forall k :: k in keys <==> k in deps
    ensures r.Some? ==> IsCycle(deps, r.value) && Distinct(r.value)
    ensures r.None? <==> Acyclic(deps)
    ensures r.None? ==> Ranked(deps, rank)
  {
    var color: map<Channel, Color> := map[];
    var parent: map<Channel, Channel> := map[];
    rank := map[];
    ghost var clock := 0;
    for s := 0 to |keys|
      invariant Inv(deps, [], color, parent, rank, clock)
      invariant forall k :: 0 <= k < s ==> keys[k] in color
    {
      if keys[s] !in color {
        r, color, parent, rank, clock := Visit(deps, keys[s], color, parent, rank, clock);
        if r.Some? {
          return;
        }
      }
    }
    RankedIsAcyclic(deps, rank);
    r := None;
  }

  /** The back-edge case: climb `parent` from the top of the stack to `child`, then reverse. */
  method CollectCycle(deps: Graph<Channel>, stack: seq<Frame>, color: map<Channel, Color>,
                      parent: map<Channel, Channel>, child: Channel) returns (cycle: seq<Channel>)
    requires stack != [] && StackOk(deps, stack, color, parent)
    requires child in color && color[child] == Grey
    requires Edge(deps, stack[|stack| - 1].node, child)
    ensures IsCycle(deps, cycle) && Distinct(cycle)
  {
    ghost var at :| 0 <= at < |stack| && stack[at].node == child;
    var trail := [];
    var curr := stack[|stack| - 1].node;
    ghost var pos := |stack| - 1;
    while curr != child
      invariant at <= pos < |stack| && curr == stack[pos].node
      invariant |trail| == |stack| - 1 - pos
      invariant forall k :: 0 <= k < |trail| ==> trail[k] == stack[|stack| - 1 - k].node
      decreases pos
    {
      assert Linked(deps, stack, parent, pos);
      trail := trail + [curr];
      curr := parent[curr];
      pos := pos - 1;
    }
    assert pos == at;
    cycle := [child] + seq(|trail|, k requires 0 <= k < |trail| => trail[|trail| - 1 - k]);
    assert forall k :: 0 <= k < |cycle| ==> cycle[k] == stack[at + k].node;
    forall k | 0 <= k < |cycle| - 1 ensures Edge(deps, cycle[k], cycle[k + 1]) {
      assert Linked(deps, stack, parent, at + k + 1);
    }
  }
}
