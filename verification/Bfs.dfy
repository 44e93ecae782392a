/** Breadth-first search: what one dequeue keeps, and why the distances are shortest. The three
    searches of pulp/floonoc_v2/floonoc_v2_routing.py share this theory. */
module Bfs {
  import opened Digraph

  /** `b` is `k` hops from `a` along some path. */
  ghost predicate HasPath<T(!new)>(g: Graph<T>, a: T, b: T, k: int): (r: bool)
    ensures r ==> k >= 0
    decreases k
  {
    if k <= 0 then k == 0 && a == b
    else exists w :: HasPath(g, a, w, k - 1) && Edge(g, w, b)
  }

  /** `k` is the length of the shortest path. */
  ghost predicate Dist<T(!new)>(g: Graph<T>, a: T, b: T, k: int) {
    HasPath(g, a, b, k) && forall j :: HasPath(g, a, b, j) ==> k <= j
  }

  ghost predicate Reachable<T(!new)>(g: Graph<T>, a: T, b: T) {
    exists k :: HasPath(g, a, b, k)
  }

  lemma {:induction false} PathTransitive<T(!new)>(g: Graph<T>, a: T, b: T, c: T, i: int, j: int)
    requires HasPath(g, a, b, i) && HasPath(g, b, c, j)
    ensures HasPath(g, a, c, i + j)
    decreases j
  {
    if j > 0 {
      var w :| HasPath(g, b, w, j - 1) && Edge(g, w, c);
      PathTransitive(g, a, b, w, i, j - 1);
    }
  }

  lemma OneHop<T(!new)>(g: Graph<T>, a: T, b: T)
    requires Edge(g, a, b)
    ensures HasPath(g, a, b, 1)
  {
    assert HasPath(g, a, a, 0);
  }

  lemma PrependHop<T(!new)>(g: Graph<T>, a: T, b: T, c: T, k: int)
    requires Edge(g, a, b) && HasPath(g, b, c, k)
    ensures HasPath(g, a, c, k + 1)
  {
    OneHop(g, a, b);
    PathTransitive(g, a, b, c, 1, k);
  }

  lemma AppendHop<T(!new)>(g: Graph<T>, a: T, b: T, c: T, k: int)
    requires HasPath(g, a, b, k) && Edge(g, b, c)
    ensures HasPath(g, a, c, k + 1)
  {
  }

  /** What no edge lowers by more than one bounds the length of paths. */
  lemma {:induction false} PathBound<T(!new)>(g: Graph<T>, left: T -> int, a: T, b: T, k: int)
    requires HasPath(g, a, b, k) && forall s, t :: Edge(g, s, t) ==> left(s) <= left(t) + 1
    ensures left(a) <= left(b) + k
    decreases k
  {
    if k > 0 {
      var w :| HasPath(g, a, w, k - 1) && Edge(g, w, b);
      PathBound(g, left, a, w, k - 1);
    }
  }

  /** The shortest distance is unique. */
  lemma DistUnique<T(!new)>(g: Graph<T>, a: T, b: T, i: int, j: int)
    requires Dist(g, a, b, i) && Dist(g, a, b, j)
    ensures i == j
  {
  }

  /** Recorded distances are path lengths. */
  ghost predicate Sound<T(!new)>(g: Graph<T>, src: T, d: map<T, int>) {
    && src in d && d[src] == 0
    && forall s :: s in d ==> s in g && d[s] >= 0 && HasPath(g, src, s, d[s])
  }

  /** The queue is sorted and spans at most two distances, `lo` and `lo + 1`. */
  ghost predicate QueueOk<T(!new)>(d: map<T, int>, q: seq<T>, lo: int) {
    && (forall i :: 0 <= i < |q| ==> q[i] in d && lo <= d[q[i]] <= lo + 1)
    && (forall i, j :: 0 <= i < j < |q| ==> d[q[i]] <= d[q[j]])
    && (forall s :: s in d ==> d[s] <= lo + 1)
    && (forall s :: s in d && s !in q ==> d[s] <= lo)
  }

  /** The successors of `s` are all recorded, one hop further at most. */
  ghost predicate Expanded<T(!new)>(g: Graph<T>, d: map<T, int>, s: T)
    requires s in d
  {
    forall n :: Edge(g, s, n) ==> n in d && d[n] <= d[s] + 1
  }

  /** Between two dequeues. */
  ghost predicate Inv<T(!new)>(g: Graph<T>, src: T, d: map<T, int>, q: seq<T>) {
    && Sound(g, src, d)
    && (q != [] ==> q[0] in d && QueueOk(d, q, d[q[0]]))
    && forall s :: s in d && s !in q ==> Expanded(g, d, s)
  }

  /** While `curr` is being expanded; its successors in `done` have been looked at. */
  ghost predicate Mid<T(!new)>(g: Graph<T>, src: T, d: map<T, int>, q: seq<T>, curr: T, done: set<T>) {
    && Sound(g, src, d) && curr in d && QueueOk(d, q, d[curr])
    && (forall s :: s in d && s !in q && s != curr ==> Expanded(g, d, s))
    && (forall n :: n in done ==> n in d)
  }

  /** Exact distances from `src`: shortest, and defined for everything reachable. */
  ghost predicate Distances<T(!new)>(g: Graph<T>, src: T, d: map<T, int>) {
    && Sound(g, src, d)
    && forall t, k :: HasPath(g, src, t, k) ==> t in d && d[t] <= k
  }

  lemma Start<T(!new)>(g: Graph<T>, src: T)
    requires src in g
    ensures Inv(g, src, map[src := 0], [src])
    ensures Mid(g, src, map[src := 0], [], src, {})
  {
    assert [src][0] == src;
  }

  lemma Dequeue<T(!new)>(g: Graph<T>, src: T, d: map<T, int>, q: seq<T>)
    requires Inv(g, src, d, q) && q != []
    ensures Mid(g, src, d, q[1..], q[0], {})
  {
    assert q == [q[0]] + q[1..];
    assert forall s :: s in q <==> s == q[0] || s in q[1..];
  }

  lemma Seen<T(!new)>(g: Graph<T>, src: T, d: map<T, int>, q: seq<T>, curr: T, done: set<T>, n: T)
    requires Mid(g, src, d, q, curr, done) && n in d
    ensures Mid(g, src, d, q, curr, done + {n})
  {
  }

  lemma Discover<T(!new)>(g: Graph<T>, src: T, d: map<T, int>, q: seq<T>, curr: T, done: set<T>, n: T)
    requires Mid(g, src, d, q, curr, done) && n !in d && Edge(g, curr, n) && n in g
    ensures Mid(g, src, d[n := d[curr] + 1], q + [n], curr, done + {n})
  {
    var d', q' := d[n := d[curr] + 1], q + [n];
    assert forall s :: s in q' <==> s in q || s == n;
    assert HasPath(g, src, n, d'[n]) by {
      assert HasPath(g, src, curr, d[curr]) && Edge(g, curr, n);
    }
    forall s | s in d' && s !in q' && s != curr ensures Expanded(g, d', s) {
      assert Expanded(g, d, s);
    }
  }

  lemma Finish<T(!new)>(g: Graph<T>, src: T, d: map<T, int>, q: seq<T>, curr: T, done: set<T>)
    requires Mid(g, src, d, q, curr, done) && curr in g && g[curr] <= done
    ensures Inv(g, src, d, q)
  {
    assert Expanded(g, d, curr);
    if q != [] {
      forall s | s in d ensures d[s] <= d[q[0]] + 1 && (s !in q ==> d[s] <= d[q[0]]) {
      }
      forall i | 0 <= i < |q| ensures d[q[0]] <= d[q[i]] {
      }
    }
  }

  lemma {:induction false} NothingCloser<T(!new)>(g: Graph<T>, src: T, d: map<T, int>, t: T, k: int)
    requires Inv(g, src, d, []) && HasPath(g, src, t, k)
    ensures t in d && d[t] <= k
    decreases k
  {
    if k > 0 {
      var w :| HasPath(g, src, w, k - 1) && Edge(g, w, t);
      NothingCloser(g, src, d, w, k - 1);
      assert Expanded(g, d, w);
    }
  }

  /** BFS optimality: once the queue is empty the recorded distances are shortest. */
  lemma Done<T(!new)>(g: Graph<T>, src: T, d: map<T, int>)
    requires Inv(g, src, d, [])
    ensures Distances(g, src, d)
    ensures forall t :: t in d <==> Reachable(g, src, t)
    ensures forall t :: t in d ==> Dist(g, src, t, d[t])
  {
    forall t, k | HasPath(g, src, t, k) ensures t in d && d[t] <= k {
      NothingCloser(g, src, d, t, k);
    }
  }

  /** `h` is the first node after `src` on a path of length `d[s]` to `s`. */
  ghost predicate HopOk<T(!new)>(g: Graph<T>, src: T, d: map<T, int>, s: T, h: T)
    requires s in d
  {
    Edge(g, src, h) && HasPath(g, h, s, d[s] - 1)
  }

  ghost predicate HopsOk<T(!new)>(g: Graph<T>, src: T, d: map<T, int>, hops: map<T, T>) {
    forall s :: s in d && s != src ==> s in hops && HopOk(g, src, d, s, hops[s])
  }

  /** A node found from `curr` is reached through `curr`'s first hop (or is one itself). */
  lemma HopsDiscover<T(!new)>(g: Graph<T>, src: T, d: map<T, int>, hops: map<T, T>, curr: T, n: T)
    requires HopsOk(g, src, d, hops) && curr in d && n !in d && Edge(g, curr, n)
    requires src in d && d[src] == 0
    ensures HopsOk(g, src, d[n := d[curr] + 1], hops[n := if curr == src then n else hops[curr]])
  {
    var d' := d[n := d[curr] + 1];
    var h := if curr == src then n else hops[curr];
    if curr != src {
      assert HopOk(g, src, d, curr, h);
      assert HasPath(g, h, n, d[curr]);
    }
    assert HopOk(g, src, d', n, h);
    forall s | s in d && s != src ensures HopOk(g, src, d', s, hops[s]) {
      assert HopOk(g, src, d, s, hops[s]);
    }
  }

  /** Taking the recorded first hop brings every target exactly one hop closer. */
  lemma HopIsShortest<T(!new)>(g: Graph<T>, src: T, d: map<T, int>, hops: map<T, T>, t: T)
    requires Distances(g, src, d) && HopsOk(g, src, d, hops) && t in d && t != src
    ensures Edge(g, src, hops[t]) && Dist(g, src, t, d[t]) && Dist(g, hops[t], t, d[t] - 1)
  {
    assert HopOk(g, src, d, t, hops[t]);
    forall j | HasPath(g, hops[t], t, j) ensures d[t] - 1 <= j {
      OneHop(g, src, hops[t]);
      PathTransitive(g, src, hops[t], t, 1, j);
    }
  }
}
