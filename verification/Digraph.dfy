/** Directed graphs given as `map node -> successor set`, their cycles, and the two ways of
    excluding a cycle: a numeric rank, and a lexicographic one. */
module Digraph {

  type Graph<!T> = map<T, set<T>>

  ghost predicate Edge<T>(g: Graph<T>, a: T, b: T) {
    a in g && b in g[a]
  }

  /** `c` lists the nodes of a directed cycle; the last node leads back to the first. */
  ghost predicate IsCycle<T>(g: Graph<T>, c: seq<T>) {
    && |c| > 0
    && (forall i :: 0 <= i < |c| - 1 ==> Edge(g, c[i], c[i + 1]))
    && Edge(g, c[|c| - 1], c[0])
  }

  ghost predicate Distinct<T>(s: seq<T>) {
    forall i, j :: 0 <= i < j < |s| ==> s[i] != s[j]
  }

  ghost predicate Acyclic<T(!new)>(g: Graph<T>) {
    forall c :: !IsCycle(g, c)
  }

  /** Every edge goes to a smaller rank. */
  ghost predicate Ranked<T>(g: Graph<T>, rank: map<T, int>) {
    forall a, b :: a in g && b in g[a] ==> a in rank && b in rank && rank[b] < rank[a]
  }

  lemma {:induction false} RankDropsAlong<T>(g: Graph<T>, rank: map<T, int>, c: seq<T>, k: nat)
    requires Ranked(g, rank) && IsCycle(g, c) && k < |c|
    ensures c[0] in rank && c[k] in rank && rank[c[k]] <= rank[c[0]] - k
  {
    if k == 0 {
      assert Edge(g, c[|c| - 1], c[0]);
    } else {
      RankDropsAlong(g, rank, c, k - 1);
      assert Edge(g, c[k - 1], c[k]);
    }
  }

  /** A ranked graph has no cycle. */
  lemma RankedIsAcyclic<T(!new)>(g: Graph<T>, rank: map<T, int>)
    requires Ranked(g, rank)
    ensures Acyclic(g)
  {
    forall c | IsCycle(g, c) ensures false {
      RankDropsAlong(g, rank, c, |c| - 1);
    }
  }

  /** Lexicographic order on triples, most significant component first. */
  predicate LexLess(a: (int, int, int), b: (int, int, int)) {
    || a.0 < b.0
    || (a.0 == b.0 && a.1 < b.1)
    || (a.0 == b.0 && a.1 == b.1 && a.2 < b.2)
  }

  lemma {:induction false} LexDropsAlong<T(!new)>(g: Graph<T>, rank: T -> (int, int, int), c: seq<T>, k: nat)
    requires forall a, b :: Edge(g, a, b) ==> LexLess(rank(b), rank(a))
    requires IsCycle(g, c) && 0 < k < |c|
    ensures LexLess(rank(c[k]), rank(c[0]))
  {
    assert Edge(g, c[k - 1], c[k]);
    if k > 1 {
      LexDropsAlong(g, rank, c, k - 1);
    }
  }

  /** A graph whose edges all descend in a lexicographic rank has no cycle. */
  lemma LexRankedIsAcyclic<T(!new)>(g: Graph<T>, rank: T -> (int, int, int))
    requires forall a, b :: Edge(g, a, b) ==> LexLess(rank(b), rank(a))
    ensures Acyclic(g)
  {
    forall c | IsCycle(g, c) ensures false {
      assert Edge(g, c[|c| - 1], c[0]);
      if |c| > 1 {
        LexDropsAlong(g, rank, c, |c| - 1);
      }
    }
  }

  /** A non-empty directed path from `a` to `b`. */
  ghost predicate IsPath<T>(g: Graph<T>, p: seq<T>, a: T, b: T) {
    && |p| >= 2 && p[0] == a && p[|p| - 1] == b
    && forall i :: 0 <= i < |p| - 1 ==> Edge(g, p[i], p[i + 1])
  }

  ghost predicate LeadsTo<T(!new)>(g: Graph<T>, a: T, b: T) {
    exists p :: IsPath(g, p, a, b)
  }

  lemma LeadsToTransitive<T(!new)>(g: Graph<T>, a: T, b: T, c: T)
    requires LeadsTo(g, a, b) && LeadsTo(g, b, c)
    ensures LeadsTo(g, a, c)
  {
    var p :| IsPath(g, p, a, b);
    var q :| IsPath(g, q, b, c);
    var r := p + q[1..];
    forall i | 0 <= i < |r| - 1 ensures Edge(g, r[i], r[i + 1]) {
      assert i >= |p| - 1 ==> r[i] == q[i - |p| + 1] && r[i + 1] == q[i - |p| + 2];
    }
    assert IsPath(g, r, a, c);
  }

  lemma ReturnIsCycle<T(!new)>(g: Graph<T>, a: T)
    requires LeadsTo(g, a, a)
    ensures !Acyclic(g)
  {
    var p :| IsPath(g, p, a, a);
    var c := p[..|p| - 1];
    assert Edge(g, p[|p| - 2], p[|p| - 1]);
    assert IsCycle(g, c);
  }

  /** A closed walk contains a cycle that visits no node twice. */
  lemma {:induction false} SimpleCycle<T(!new)>(g: Graph<T>, c: seq<T>) returns (s: seq<T>)
    requires IsCycle(g, c)
    ensures IsCycle(g, s) && Distinct(s)
    decreases |c|
  {
    if Distinct(c) {
      s := c;
    } else {
      var i, j :| 0 <= i < j < |c| && c[i] == c[j];
      assert Edge(g, c[j - 1], c[j]);
      s := SimpleCycle(g, c[i..j]);
    }
  }

  ghost function Below(n: nat): (s: set<int>)
    ensures forall k :: k in s <==> 0 <= k < n
    ensures |s| == n
  {
    if n == 0 then {}
    else
      var t := Below(n - 1);
      assert n - 1 !in t;
      t + {n - 1}
  }

  /** Pigeonhole: a sequence without repetition is no longer than the set it is drawn from. */
  lemma {:induction false} DistinctFits<T>(s: seq<T>, universe: set<T>)
    requires Distinct(s) && forall i :: 0 <= i < |s| ==> s[i] in universe
    ensures |s| <= |universe|
  {
    if s != [] {
      var p, l := s[..|s| - 1], s[|s| - 1];
      assert forall i :: 0 <= i < |p| ==> p[i] == s[i];
      DistinctFits(p, universe - {l});
    }
  }

  /** Node number `k` of the list leads to node number `next[k]`. */
  ghost predicate LeadsOn<T(!new)>(g: Graph<T>, heads: seq<T>, next: seq<int>) {
    && |next| == |heads|
    && forall k :: 0 <= k < |heads| ==> LeadsInto(g, heads, k, next[k])
  }

  ghost predicate LeadsInto<T(!new)>(g: Graph<T>, heads: seq<T>, k: int, f: int) {
    0 <= k < |heads| && 0 <= f < |heads| && LeadsTo(g, heads[k], heads[f])
  }

  /** The node reached from node 0 in `n` steps of `next`. */
  ghost function Follow(next: seq<int>, n: nat): (k: int)
    requires next != [] && forall k :: 0 <= k < |next| ==> 0 <= next[k] < |next|
    ensures 0 <= k < |next|
  {
    if n == 0 then 0 else next[Follow(next, n - 1)]
  }

  lemma {:induction false} FollowLeads<T(!new)>(g: Graph<T>, heads: seq<T>, next: seq<int>, i: nat, j: nat)
    requires LeadsOn(g, heads, next) && heads != [] && i < j
    requires forall k :: 0 <= k < |next| ==> 0 <= next[k] < |next|
    ensures LeadsTo(g, heads[Follow(next, i)], heads[Follow(next, j)])
  {
    assert LeadsInto(g, heads, Follow(next, j - 1), Follow(next, j));
    if i < j - 1 {
      FollowLeads(g, heads, next, i, j - 1);
      LeadsToTransitive(g, heads[Follow(next, i)], heads[Follow(next, j - 1)], heads[Follow(next, j)]);
    }
  }

  /** Pigeonhole: following `next` for long enough comes back somewhere. */
  lemma FollowRepeats(next: seq<int>) returns (i: nat, j: nat)
    requires next != [] && forall k :: 0 <= k < |next| ==> 0 <= next[k] < |next|
    ensures i < j && Follow(next, i) == Follow(next, j)
  {
    var trail := seq(|next| + 1, n requires n >= 0 => Follow(next, n));
    if Distinct(trail) {
      DistinctFits(trail, Below(|next|));
    }
    i, j :| 0 <= i < j < |trail| && trail[i] == trail[j];
  }

  /** Nodes that all lead to one another's like close a cycle. */
  lemma LeadsOnHasCycle<T(!new)>(g: Graph<T>, heads: seq<T>, next: seq<int>)
    requires heads != [] && LeadsOn(g, heads, next)
    ensures !Acyclic(g)
  {
    forall k | 0 <= k < |next| ensures 0 <= next[k] < |next| {
      assert LeadsInto(g, heads, k, next[k]);
    }
    var i, j := FollowRepeats(next);
    FollowLeads(g, heads, next, i, j);
    ReturnIsCycle(g, heads[Follow(next, i)]);
  }
}
