/** Ties in breadth-first search: the recorded first hop is the first one in the order of the source's
    links. One level of the queue is sorted by the rank of the first hops. */
module BfsOrder {
  import opened Digraph
  import opened Bfs

  /** No first hop of a path as short as the recorded one is ranked before the recorded hop. */
  ghost predicate BestAt<T(!new)>(g: Graph<T>, src: T, d: map<T, int>, hops: map<T, T>, rank: T -> int, s: T)
    requires s in d && s in hops
  {
    forall h :: Edge(g, src, h) && HasPath(g, h, s, d[s] - 1) ==> rank(hops[s]) <= rank(h)
  }

  ghost predicate AllBest<T(!new)>(g: Graph<T>, src: T, d: map<T, int>, hops: map<T, T>, rank: T -> int) {
    forall s :: s in d && s != src ==> s in hops && BestAt(g, src, d, hops, rank, s)
  }

  /** `x` is as far as `y`, and not ranked after it. */
  predicate InOrder<T(==)>(d: map<T, int>, hops: map<T, T>, rank: T -> int, x: T, y: T) {
    x in d && y in d && x in hops && y in hops && (d[x] == d[y] ==> rank(hops[x]) <= rank(hops[y]))
  }

  ghost predicate QueueInOrder<T>(d: map<T, int>, q: seq<T>, hops: map<T, T>, rank: T -> int) {
    forall i, j :: 0 <= i < j < |q| ==> InOrder(d, hops, rank, q[i], q[j])
  }

  /** What was found from nodes as far as `x`, up to it, is not ranked after `x`. */
  ghost predicate NextInOrder<T(!new)>(d: map<T, int>, q: seq<T>, hops: map<T, T>, rank: T -> int, x: T) {
    x in d && x in hops && forall y :: y in q && y in d && y in hops && d[y] == d[x] + 1 ==> rank(hops[y]) <= rank(hops[x])
  }

  /** Between two dequeues. */
  ghost predicate OrderWaiting<T(!new)>(g: Graph<T>, src: T, d: map<T, int>, q: seq<T>, hops: map<T, T>, rank: T -> int) {
    && AllBest(g, src, d, hops, rank)
    && if q == [src] then d.Keys == {src}
       else src !in q && QueueInOrder(d, q, hops, rank) && (q != [] ==> NextInOrder(d, q, hops, rank, q[0]))
  }

  /** While `curr` is being expanded; `last` bounds the ranks found from the source itself. */
  ghost predicate OrderMid<T(!new)>(g: Graph<T>, src: T, d: map<T, int>, q: seq<T>, hops: map<T, T>, rank: T -> int, curr: T,
                                    last: int)
  {
    && AllBest(g, src, d, hops, rank) && src !in q && QueueInOrder(d, q, hops, rank)
    && if curr == src then forall x :: x in q && x in hops ==> rank(hops[x]) <= last
       else NextInOrder(d, q, hops, rank, curr) && forall x :: x in q ==> InOrder(d, hops, rank, curr, x)
  }

  lemma QueueIsFar<T(!new)>(d: map<T, int>, q: seq<T>, lo: int)
    requires QueueOk(d, q, lo)
    ensures forall x :: x in q ==> x in d && lo <= d[x] <= lo + 1
  {
  }

  /** While a node as far as `d[curr]` is expanded, all nodes up to that distance are known. */
  lemma {:induction false} LevelIsKnown<T(!new)>(g: Graph<T>, src: T, d: map<T, int>, q: seq<T>, curr: T, done: set<T>, t: T, k: int)
    requires Mid(g, src, d, q, curr, done) && HasPath(g, src, t, k) && k <= d[curr]
    ensures t in d && d[t] <= k
    decreases k
  {
    if k > 0 {
      var w :| HasPath(g, src, w, k - 1) && Edge(g, w, t);
      LevelIsKnown(g, src, d, q, curr, done, w, k - 1);
      QueueIsFar(d, q, d[curr]);
      assert Expanded(g, d, w);
    }
  }

  lemma OrderDequeue<T(!new)>(g: Graph<T>, src: T, d: map<T, int>, q: seq<T>, hops: map<T, T>, rank: T -> int, last: int)
    requires OrderWaiting(g, src, d, q, hops, rank) && q != []
    ensures OrderMid(g, src, d, q[1..], hops, rank, q[0], last)
  {
    assert forall x :: x in q[1..] ==> x in q;
    if q == [src] {
      assert q[1..] == [];
    } else {
      forall x | x in q[1..] ensures InOrder(d, hops, rank, q[0], x) {
        var j :| 0 <= j < |q| - 1 && q[1..][j] == x;
        assert q[j + 1] == x;
      }
    }
  }

  lemma OrderFinish<T(!new)>(g: Graph<T>, src: T, d: map<T, int>, q: seq<T>, hops: map<T, T>, rank: T -> int, curr: T,
                             done: set<T>, last: int)
    requires Mid(g, src, d, q, curr, done) && OrderMid(g, src, d, q, hops, rank, curr, last)
    ensures OrderWaiting(g, src, d, q, hops, rank)
  {
    assert q != [src] by {
      assert src in [src];
    }
    if q != [] {
      var x := q[0];
      assert x in q && x != src;
      forall y | y in q && d[y] == d[x] + 1 ensures rank(hops[y]) <= rank(hops[x]) {
        var i :| 0 <= i < |q| && q[i] == y;
        if curr != src {
          assert InOrder(d, hops, rank, curr, x);
        }
      }
    }
  }

  /** A known node next to an unknown one has not been expanded. */
  lemma NotYetExpanded<T(!new)>(g: Graph<T>, src: T, d: map<T, int>, q: seq<T>, curr: T, done: set<T>, w: T, n: T)
    requires Mid(g, src, d, q, curr, done) && w in d && w != curr && Edge(g, w, n) && n !in d
    ensures w in q
  {
  }

  /** A first hop `h` of a path to a newly found node cannot be ranked before the hop inherited from `curr`. */
  lemma InheritedIsBest<T(!new)>(g: Graph<T>, src: T, d: map<T, int>, q: seq<T>, hops: map<T, T>, rank: T -> int, curr: T,
                                 done: set<T>, last: int, n: T, h: T)
    requires Mid(g, src, d, q, curr, done) && OrderMid(g, src, d, q, hops, rank, curr, last) && curr != src
    requires n !in d && Edge(g, src, h) && HasPath(g, h, n, d[curr])
    ensures curr in hops && rank(hops[curr]) <= rank(h)
  {
    assert d[curr] > 0 by {
      assert HasPath(g, src, curr, d[curr]);
    }
    var w :| HasPath(g, h, w, d[curr] - 1) && Edge(g, w, n);
    PrependHop(g, src, h, w, d[curr] - 1);
    LevelIsKnown(g, src, d, q, curr, done, w, d[curr]);
    if w != curr {
      NotYetExpanded(g, src, d, q, curr, done, w, n);
      assert InOrder(d, hops, rank, curr, w);
    }
    assert BestAt(g, src, d, hops, rank, w);
  }

  lemma OrderDiscover<T(!new)>(g: Graph<T>, src: T, d: map<T, int>, q: seq<T>, hops: map<T, T>, rank: T -> int, curr: T,
                               done: set<T>, last: int, n: T)
    requires Mid(g, src, d, q, curr, done) && OrderMid(g, src, d, q, hops, rank, curr, last)
    requires n !in d && (curr != src ==> curr in hops) && (curr == src ==> last <= rank(n))
    ensures
      OrderMid(g, src, d[n := d[curr] + 1], q + [n], hops[n := if curr == src then n else hops[curr]], rank, curr, rank(n))
  {
    var d', q', hops' := d[n := d[curr] + 1], q + [n], hops[n := if curr == src then n else hops[curr]];
    forall s | s in d' && s != src ensures s in hops' && BestAt(g, src, d', hops', rank, s) {
      if s == n {
        forall h | Edge(g, src, h) && HasPath(g, h, n, d[curr]) ensures rank(hops'[n]) <= rank(h) {
          if curr != src {
            InheritedIsBest(g, src, d, q, hops, rank, curr, done, last, n, h);
          }
        }
      } else {
        assert BestAt(g, src, d, hops, rank, s);
      }
    }
    QueueGrows(d, q, hops, rank, n, d[curr] + 1, hops'[n]);
    forall x | x in q' ensures x in q || x == n {
    }
  }

  lemma QueueGrows<T(!new)>(d: map<T, int>, q: seq<T>, hops: map<T, T>, rank: T -> int, n: T, k: int, hop: T)
    requires QueueInOrder(d, q, hops, rank) && n !in d
    requires forall x :: x in q ==> x in d && x in hops && (d[x] == k ==> rank(hops[x]) <= rank(hop))
    ensures QueueInOrder(d[n := k], q + [n], hops[n := hop], rank)
  {
    var d', q', hops' := d[n := k], q + [n], hops[n := hop];
    forall i, j | 0 <= i < j < |q'| ensures InOrder(d', hops', rank, q'[i], q'[j]) {
      assert q[i] in q;
      if j < |q| {
        assert InOrder(d, hops, rank, q[i], q[j]);
      }
    }
  }
}
