/** The round-robin tree arbiter of a router output (pulp/floonoc_v2/floonoc_router_v2.cpp).
    Request masks are the sets of their bits. */
module Arbiter {
  import opened Wrappers
  import opened Bits

  /** Some request lies in `lo..hi`. */
  predicate Any(req: set<int>, lo: int, hi: int) {
    exists i :: i in req && lo <= i < hi
  }

  /** The tree below node `lo`, `k` levels high: the right subtree when the left one has no request,
      or when both have one and the priority bit of the level is set. */
  function Select(req: set<int>, rr: int, lo: int, k: nat): int
    decreases k
  {
    if k == 0 then lo
    else
      var half := Pow2(k - 1);
      if !Any(req, lo, lo + half) || (Any(req, lo + half, lo + 2 * half) && (rr / half) % 2 == 1)
      then Select(req, rr, lo + half, k - 1)
      else Select(req, rr, lo, k - 1)
  }

  /** `arb_select` */
  method ArbSelect(req: set<int>, rr: int, levels: nat) returns (lo: int)
    ensures lo == Select(req, rr, 0, levels)
  {
    lo := 0;
    for level := 0 to levels
      invariant Select(req, rr, lo, levels - level) == Select(req, rr, 0, levels)
    {
      var half := Pow2(levels - 1 - level);
      var left := Any(req, lo, lo + half);
      var right := Any(req, lo + half, lo + 2 * half);
      if !left || (right && (rr / half) % 2 == 1) {
        lo := lo + half;
      }
    }
  }

  /** The exclusive or of the low `k` bits of two numbers. */
  function Xor(a: int, b: int, k: nat): (x: int)
    ensures 0 <= x < Pow2(k)
  {
    if k == 0 then 0
    else (if (a / Pow2(k - 1)) % 2 != (b / Pow2(k - 1)) % 2 then Pow2(k - 1) else 0) + Xor(a, b, k - 1)
  }

  /** Inside an aligned block of size `2 * half`, the bit of weight `half` tells the halves apart. */
  lemma TopBit(base: int, half: int, x: int)
    requires half >= 1 && base * (2 * half) <= x < base * (2 * half) + 2 * half
    ensures (x / half) % 2 == if x < base * (2 * half) + half then 0 else 1
  {
    DivIs(x, half, if x < base * (2 * half) + half then 2 * base else 2 * base + 1);
  }

  /** `x` is a request of the block, and none there is nearer to `rr`. */
  ghost predicate Nearest(req: set<int>, rr: int, lo: int, k: nat, s: int) {
    && s in req && lo <= s < lo + Pow2(k)
    && forall x :: x in req && lo <= x < lo + Pow2(k) ==> Xor(s, rr, k) <= Xor(x, rr, k)
  }

  /** The nearest request of one half is the nearest of both, if the other half is empty or differs
      from `rr` in the top bit. */
  lemma NearestOfHalves(req: set<int>, rr: int, base: int, k: nat, right: bool, s: int)
    requires k > 0
    requires
      var half := Pow2(k - 1);
      var lo := base * Pow2(k);
      && Nearest(req, rr, if right then lo + half else lo, k - 1, s)
      && if right then !Any(req, lo, lo + half) || (rr / half) % 2 == 1
         else !Any(req, lo + half, lo + 2 * half) || (rr / half) % 2 != 1
    ensures Nearest(req, rr, base * Pow2(k), k, s)
  {
    var half := Pow2(k - 1);
    var lo := base * Pow2(k);
    TopBit(base, half, s);
    forall x | x in req && lo <= x < lo + Pow2(k) ensures Xor(s, rr, k) <= Xor(x, rr, k) {
      TopBit(base, half, x);
      assert x < lo + half ==> Any(req, lo, lo + half);
      assert x >= lo + half ==> Any(req, lo + half, lo + 2 * half);
    }
  }

  /** The tree finds the request whose number differs least, as an exclusive or, from the priority. */
  lemma {:induction false} SelectIsNearest(req: set<int>, rr: int, base: int, lo: int, k: nat)
    requires lo == base * Pow2(k) && Any(req, lo, lo + Pow2(k))
    ensures Nearest(req, rr, lo, k, Select(req, rr, lo, k))
    decreases k
  {
    if k > 0 {
      var half := Pow2(k - 1);
      var left, right := Any(req, lo, lo + half), Any(req, lo + half, lo + 2 * half);
      var goRight := !left || (right && (rr / half) % 2 == 1);
      assert left || right;
      if goRight {
        SelectIsNearest(req, rr, 2 * base + 1, lo + half, k - 1);
      } else {
        SelectIsNearest(req, rr, 2 * base, lo, k - 1);
      }
      NearestOfHalves(req, rr, base, k, goRight, Select(req, rr, lo, k));
    }
  }

  predicate InBlock(x: int, base: int, k: nat) {
    base * Pow2(k) <= x < base * Pow2(k) + Pow2(k)
  }

  lemma InHalf(x: int, base: int, k: nat)
    requires k > 0 && InBlock(x, base, k)
    ensures InBlock(x, 2 * base + (x / Pow2(k - 1)) % 2, k - 1)
  {
    var half := Pow2(k - 1);
    TopBit(base, half, x);
    assert (2 * base) * half == base * Pow2(k) && (2 * base + 1) * half == base * Pow2(k) + half;
  }

  lemma {:induction false} XorZero(a: int, b: int, base: int, k: nat)
    requires InBlock(a, base, k) && InBlock(b, base, k)
    ensures Xor(a, b, k) == 0 <==> a == b
    decreases k
  {
    if k > 0 {
      InHalf(a, base, k);
      InHalf(b, base, k);
      if (a / Pow2(k - 1)) % 2 == (b / Pow2(k - 1)) % 2 {
        XorZero(a, b, 2 * base + (a / Pow2(k - 1)) % 2, k - 1);
      }
    }
  }

  lemma HasMember(req: set<int>)
    ensures req == {} || exists i :: i in req
  {
    if !exists i :: i in req {
      assert req <= {};
    }
  }

  predicate Within(req: set<int>, n: int) {
    forall i :: i in req ==> 0 <= i < n
  }

  /** The arbiter always selects a request, and the priority one when it requests. */
  lemma SelectPicks(req: set<int>, rr: int, n: int, levels: nat)
    requires req != {} && Within(req, n) && n <= Pow2(levels) && 0 <= rr < n
    ensures Select(req, rr, 0, levels) in req
    ensures rr in req ==> Select(req, rr, 0, levels) == rr
  {
    HasMember(req);
    var i :| i in req;
    var p, s := Pow2(levels), Select(req, rr, 0, levels);
    assert Any(req, 0, p) && 0 * p == 0;
    SelectIsNearest(req, rr, 0, 0, levels);
    XorZero(s, rr, 0, levels);
    XorZero(rr, rr, 0, levels);
    assert rr in req ==> Xor(s, rr, levels) <= Xor(rr, rr, levels);
  }

  /** The first request in `lo..hi`. */
  function FirstIn(req: set<int>, lo: int, hi: int): (r: Option<int>)
    ensures r.Some? ==> r.value in req && lo <= r.value < hi && !Any(req, lo, r.value)
    ensures r.None? ==> !Any(req, lo, hi)
    decreases hi - lo
  {
    if lo >= hi then None
    else if lo in req then Some(lo)
    else FirstIn(req, lo + 1, hi)
  }

  function Next(req: set<int>, rr: int, n: int): int {
    var above := FirstIn(req, rr + 1, n);
    if above.Some? then above.value
    else
      var below := FirstIn(req, 0, rr + 1);
      if below.Some? then below.value else rr
  }

  /** `arb_next` */
  method ArbNext(req: set<int>, rr: int, n: int) returns (r: int)
    requires 0 <= rr < n
    ensures r == Next(req, rr, n)
  {
    for i := rr + 1 to n
      invariant FirstIn(req, i, n) == FirstIn(req, rr + 1, n)
    {
      if i in req {
        return i;
      }
    }
    for i := 0 to rr + 1
      invariant FirstIn(req, i, rr + 1) == FirstIn(req, 0, rr + 1)
    {
      if i in req {
        return i;
      }
    }
    r := rr;
  }

  /** How far `w` is ahead of `rr` on the circle of `n` inputs; `rr` itself is 0 ahead. */
  function Ahead(rr: int, w: int, n: int): int {
    if w >= rr then w - rr else w + n - rr
  }

  /** The next priority is the first request after the old one on the circle: it passes no request,
      so every other request gets strictly closer to having priority. */
  lemma NextPassesNobody(req: set<int>, rr: int, n: int, w: int)
    requires 0 <= rr < n && Within(req, n) && w in req
    ensures Next(req, rr, n) in req
    ensures w != rr ==> 0 <= Ahead(Next(req, rr, n), w, n) < Ahead(rr, w, n)
  {
    var above := FirstIn(req, rr + 1, n);
    if above.None? {
      var below := FirstIn(req, 0, rr + 1);
      assert w <= rr ==> Any(req, 0, rr + 1);
      assert w > rr ==> Any(req, rr + 1, n);
      if below.Some? {
        assert w < below.value ==> Any(req, 0, below.value);
      }
    } else if rr < w {
      assert w < above.value ==> Any(req, rr + 1, above.value);
    }
  }
}
