/** Division, powers of two, and bit masks on non-negative integers: how many numbers agree outside a mask. */
module Bits {

  function Pow2(k: nat): (p: int)
    ensures p >= 1
  {
    if k == 0 then 1 else 2 * Pow2(k - 1)
  }

  lemma MulSign(a: int, h: int)
    requires h >= 1
    ensures a >= 1 ==> a * h >= h
    ensures a <= -1 ==> a * h <= -h
  {
  }

  lemma DivIs(x: int, h: int, q: int)
    requires h >= 1 && q * h <= x < q * h + h
    ensures x / h == q
  {
    MulSign(x / h - q, h);
    assert (x / h - q) * h == (x / h) * h - q * h;
  }

  /** `a & ~m` */
  function AndNot(a: nat, m: nat): nat {
    if a == 0 then 0 else (if a % 2 == 1 && m % 2 == 0 then 1 else 0) + 2 * AndNot(a / 2, m / 2)
  }

  /** `a | m` */
  function Or(a: nat, m: nat): nat
    decreases a + m
  {
    if a == 0 && m == 0 then 0 else (if a % 2 == 1 || m % 2 == 1 then 1 else 0) + 2 * Or(a / 2, m / 2)
  }

  function PopCount(m: nat): nat {
    if m == 0 then 0 else m % 2 + PopCount(m / 2)
  }

  /** The two numbers agree on every bit outside the mask. */
  predicate Matches(c: nat, s: nat, m: nat) {
    AndNot(c, m) == AndNot(s, m)
  }

  lemma {:induction false} AndNotLess(a: nat, m: nat)
    ensures AndNot(a, m) <= a
  {
    if a > 0 {
      AndNotLess(a / 2, m / 2);
    }
  }

  lemma AndNotStep(x: nat, d: nat, y: nat, e: nat)
    requires d < 2 && e < 2
    ensures AndNot(2 * x + d, 2 * y + e) == 2 * AndNot(x, y) + if d == 1 && e == 0 then 1 else 0
  {
  }

  lemma ShiftParts(k: nat, b: nat, a: nat)
    requires k > 0
    ensures Pow2(k - 1) * b >= 0 && Pow2(k) * b + a == 2 * (Pow2(k - 1) * b + a / 2) + a % 2
  {
  }

  /** Masking works on the low `k` bits and on the bits above them separately. */
  lemma {:induction false} AndNotParts(a: nat, b: nat, m: nat, n: nat, k: nat)
    requires a < Pow2(k) && m < Pow2(k)
    ensures Pow2(k) * b + a >= 0 && Pow2(k) * n + m >= 0
    ensures AndNot(Pow2(k) * b + a, Pow2(k) * n + m) == Pow2(k) * AndNot(b, n) + AndNot(a, m)
    decreases k
  {
    if k == 0 {
      assert a == 0 && m == 0;
    } else {
      AndNotParts(a / 2, b, m / 2, n, k - 1);
      ShiftParts(k, b, a);
      ShiftParts(k, n, m);
      ShiftParts(k, AndNot(b, n), 0);
      AndNotStep(Pow2(k - 1) * b + a / 2, a % 2, Pow2(k - 1) * n + m / 2, m % 2);
      AndNotStep(a / 2, a % 2, m / 2, m % 2);
    }
  }

  lemma Digits(h: int, x: int, r: int, y: int, t: int)
    requires 0 <= r < h && 0 <= t < h && h * x + r == h * y + t
    ensures x == y && r == t
  {
    DivIs(h * x + r, h, x);
    DivIs(h * x + r, h, y);
  }

  /** Numbers match exactly if their low `k` bits and the bits above match. */
  lemma MatchesParts(a: nat, b: nat, s: nat, t: nat, m: nat, n: nat, k: nat)
    requires a < Pow2(k) && s < Pow2(k) && m < Pow2(k)
    ensures Pow2(k) * b + a >= 0 && Pow2(k) * t + s >= 0 && Pow2(k) * n + m >= 0
    ensures Matches(Pow2(k) * b + a, Pow2(k) * t + s, Pow2(k) * n + m) <==> Matches(a, s, m) && Matches(b, t, n)
  {
    AndNotParts(a, b, m, n, k);
    AndNotParts(s, t, m, n, k);
    AndNotLess(a, m);
    AndNotLess(s, m);
    if Matches(Pow2(k) * b + a, Pow2(k) * t + s, Pow2(k) * n + m) {
      Digits(Pow2(k), AndNot(b, n), AndNot(a, m), AndNot(t, n), AndNot(s, m));
    }
  }

  /** Numbers that match lie between the masked number and the number with the mask added. */
  lemma {:induction false} MatchesInRange(c: nat, s: nat, m: nat)
    requires Matches(c, s, m)
    ensures AndNot(s, m) <= c <= Or(s, m)
    decreases c + s + m
  {
    if c + s + m > 0 {
      MatchesInRange(c / 2, s / 2, m / 2);
    }
  }

  function MatchSet(s: nat, m: nat): set<int> {
    set c | 0 <= c <= Or(s, m) && Matches(c, s, m)
  }

  function Doubled(t: set<int>, b: int): set<int> {
    set c | c in t :: 2 * c + b
  }

  lemma InDoubled(t: set<int>, b: int, x: int)
    requires 0 <= b < 2
    ensures x in Doubled(t, b) <==> x % 2 == b && x / 2 in t
  {
    if x % 2 == b && x / 2 in t {
      assert x == 2 * (x / 2) + b;
    }
  }

  lemma {:induction false} DoubledSize(t: set<int>, b: int)
    requires 0 <= b < 2
    ensures |Doubled(t, b)| == |t|
    decreases |t|
  {
    if !exists c :: c in t {
      assert t <= {};
      assert Doubled(t, b) <= {};
    } else {
      var c :| c in t;
      DoubledSize(t - {c}, b);
      forall x ensures x in Doubled(t, b) <==> x in Doubled(t - {c}, b) + {2 * c + b} {
        InDoubled(t, b, x);
        InDoubled(t - {c}, b, x);
      }
      InDoubled(t - {c}, b, 2 * c + b);
      assert Doubled(t, b) == Doubled(t - {c}, b) + {2 * c + b};
    }
  }

  lemma BothHalves(t: set<int>)
    ensures |Doubled(t, 0) + Doubled(t, 1)| == 2 * |t|
  {
    forall x | x in Doubled(t, 0) ensures x !in Doubled(t, 1) {
      InDoubled(t, 0, x);
      InDoubled(t, 1, x);
    }
    assert Doubled(t, 0) !! Doubled(t, 1);
    DoubledSize(t, 0);
    DoubledSize(t, 1);
  }

  lemma InMatchSet(c: int, s: nat, m: nat)
    ensures c in MatchSet(s, m) <==> c >= 0 && Matches(c, s, m)
  {
    if c >= 0 && Matches(c, s, m) {
      MatchesInRange(c, s, m);
    }
  }

  lemma MatchSetStep(s: nat, m: nat)
    ensures
      var half := MatchSet(s / 2, m / 2);
      MatchSet(s, m) == if m % 2 == 1 then Doubled(half, 0) + Doubled(half, 1) else Doubled(half, s % 2)
  {
    var half := MatchSet(s / 2, m / 2);
    var all := if m % 2 == 1 then Doubled(half, 0) + Doubled(half, 1) else Doubled(half, s % 2);
    forall c ensures c in MatchSet(s, m) <==> c in all {
      InMatchSet(c, s, m);
      InMatchSet(c / 2, s / 2, m / 2);
      InDoubled(half, 0, c);
      InDoubled(half, 1, c);
    }
  }

  lemma OnlyZero()
    ensures MatchSet(0, 0) == {0}
  {
    forall c ensures c in MatchSet(0, 0) <==> c in {0} {
      InMatchSet(c, 0, 0);
      if c >= 0 {
        MatchesZero(c);
      }
    }
  }

  lemma {:induction false} MatchesZero(c: nat)
    ensures AndNot(c, 0) == c
  {
    if c > 0 {
      MatchesZero(c / 2);
    }
  }

  lemma CountStep(s: nat, m: nat)
    ensures |MatchSet(s, m)| == if m % 2 == 1 then 2 * |MatchSet(s / 2, m / 2)| else |MatchSet(s / 2, m / 2)|
  {
    MatchSetStep(s, m);
    BothHalves(MatchSet(s / 2, m / 2));
    DoubledSize(MatchSet(s / 2, m / 2), s % 2);
  }

  /** A mask of `k` bits leaves `2^k` numbers to choose from. */
  lemma {:induction false} MatchCount(s: nat, m: nat)
    ensures |MatchSet(s, m)| == Pow2(PopCount(m))
    decreases s + m
  {
    if s == 0 && m == 0 {
      OnlyZero();
    } else {
      CountStep(s, m);
      MatchCount(s / 2, m / 2);
    }
  }

  lemma {:induction false} Pow2Sum(a: nat, b: nat)
    ensures Pow2(a + b) == Pow2(a) * Pow2(b)
  {
    if a > 0 {
      Pow2Sum(a - 1, b);
    }
  }
}
