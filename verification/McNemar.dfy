/** The exact McNemar test of scripts/harness_tournament.py, against what it is meant to compute:
    the chance that fair coins, one for each cell on which the two loops disagree, fall at least
    as unevenly as the disagreements did. */
module McNemar {

  function Choose(n: nat, k: nat): nat {
    if k == 0 then 1 else if n == 0 then 0 else Choose(n - 1, k - 1) + Choose(n - 1, k)
  }

  function Pow2(n: nat): (p: nat)
    ensures p >= 1
  {
    if n == 0 then 1 else 2 * Pow2(n - 1)
  }

  /** The first m + 1 terms of row n of Pascal's triangle. */
  function LowTail(n: nat, m: nat): nat {
    Choose(n, m) + if m == 0 then 0 else LowTail(n, m - 1)
  }

  function Min(a: nat, b: nat): nat {
    if a < b then a else b
  }

  function Max(a: nat, b: nat): nat {
    if a < b then b else a
  }

  function Ratio(a: nat, b: nat): real
    requires b > 0
  {
    a as real / b as real
  }

  /** The p-value for two loops that passed alone `leftOnly` and `rightOnly` times. */
  function PValue(leftOnly: nat, rightOnly: nat): real {
    var n := leftOnly + rightOnly;
    if n == 0 then 1.0 else
      var tail := Ratio(LowTail(n, Min(leftOnly, rightOnly)), Pow2(n));
      if 2.0 * tail < 1.0 then 2.0 * tail else 1.0
  }

  /* ---------- coin tosses ---------- */

  /** Of the 2^n ways n more coins can fall, those that leave left and right at least d apart. */
  function Coins(n: nat, left: nat, right: nat, d: nat): nat {
    if n > 0 then Coins(n - 1, left + 1, right, d) + Coins(n - 1, left, right + 1, d)
    else if left - right >= d || right - left >= d then 1
    else 0
  }

  /** The ways in which at most m of n coins show heads. */
  function AtMost(n: nat, m: int): nat {
    if n > 0 then AtMost(n - 1, m - 1) + AtMost(n - 1, m) else if m >= 0 then 1 else 0
  }

  function AtLeast(n: nat, m: int): nat {
    if n > 0 then AtLeast(n - 1, m - 1) + AtLeast(n - 1, m) else if m <= 0 then 1 else 0
  }

  lemma {:induction false} CoinsAreTails(n: nat, left: nat, right: nat, lo: int, hi: int)
    requires lo < hi && left + right + n == lo + hi
    ensures Coins(n, left, right, hi - lo) == AtMost(n, lo - left) + AtLeast(n, hi - left)
  {
    if n > 0 {
      CoinsAreTails(n - 1, left + 1, right, lo, hi);
      CoinsAreTails(n - 1, left, right + 1, lo, hi);
    }
  }

  lemma {:induction false} EveryFall(n: nat, left: nat, right: nat)
    ensures Coins(n, left, right, 0) == Pow2(n)
  {
    if n > 0 {
      EveryFall(n - 1, left + 1, right);
      EveryFall(n - 1, left, right + 1);
    }
  }

  lemma {:induction false} AtLeastMirrors(n: nat, m: int)
    ensures AtLeast(n, m) == AtMost(n, n - m)
  {
    if n > 0 {
      AtLeastMirrors(n - 1, m - 1);
      AtLeastMirrors(n - 1, m);
    }
  }

  lemma {:induction false} EitherSide(n: nat, m: int)
    ensures AtMost(n, m) + AtLeast(n, m + 1) == Pow2(n)
  {
    if n > 0 {
      EitherSide(n - 1, m - 1);
      EitherSide(n - 1, m);
    }
  }

  lemma {:induction false} NoFewerThanNone(n: nat, m: int)
    requires m < 0
    ensures AtMost(n, m) == 0
  {
    if n > 0 {
      NoFewerThanNone(n - 1, m - 1);
      NoFewerThanNone(n - 1, m);
    }
  }

  lemma {:induction false} LowTailPascal(n: nat, m: nat)
    requires n > 0
    ensures LowTail(n, m) == LowTail(n - 1, m) + if m == 0 then 0 else LowTail(n - 1, m - 1)
  {
    if m > 0 {
      LowTailPascal(n, m - 1);
    }
  }

  lemma {:induction false} OneCoinless(m: nat)
    ensures LowTail(0, m) == 1
  {
    if m > 0 {
      OneCoinless(m - 1);
    }
  }

  /** The sum of binomial coefficients counts the falls with at most m heads. */
  lemma {:induction false} AtMostIsTail(n: nat, m: nat)
    ensures AtMost(n, m) == LowTail(n, m)
  {
    if n == 0 {
      OneCoinless(m);
    } else {
      LowTailPascal(n, m);
      AtMostIsTail(n - 1, m);
      if m > 0 {
        AtMostIsTail(n - 1, m - 1);
      } else {
        NoFewerThanNone(n - 1, -1);
      }
    }
  }

  lemma {:induction false} ChoosePositive(n: nat, k: nat)
    requires k <= n
    ensures Choose(n, k) >= 1
  {
    if k > 0 {
      ChoosePositive(n - 1, k - 1);
    }
  }

  lemma {:induction false} LowTailGrows(n: nat, m: nat, m': nat)
    requires m < m' <= n
    ensures LowTail(n, m) < LowTail(n, m')
  {
    ChoosePositive(n, m');
    if m < m' - 1 {
      LowTailGrows(n, m, m' - 1);
    }
  }

  /** The falls at least as uneven as lo against hi, lo < hi: twice the lower tail. */
  lemma UnevenFalls(lo: nat, hi: nat)
    requires lo < hi
    ensures Coins(lo + hi, 0, 0, hi - lo) == 2 * LowTail(lo + hi, lo)
    ensures Coins(lo + hi, 0, 0, hi - lo) == AtMost(lo + hi, lo) + AtLeast(lo + hi, hi)
    ensures if hi == lo + 1 then 2 * LowTail(lo + hi, lo) == Pow2(lo + hi) else 2 * LowTail(lo + hi, lo) < Pow2(lo + hi)
  {
    hide *;
    var n := lo + hi;
    CoinsAreTails(n, 0, 0, lo, hi);
    AtLeastMirrors(n, hi);
    AtMostIsTail(n, lo);
    EitherSide(n, hi - 1);
    AtMostIsTail(n, hi - 1);
    if lo < hi - 1 {
      LowTailGrows(n, lo, hi - 1);
    }
  }

  /** An even split: the lower tail holds more than half of the falls. */
  lemma EvenSplit(k: nat)
    ensures 2 * LowTail(2 * k, k) > Pow2(2 * k)
  {
    EitherSide(2 * k, k);
    AtLeastMirrors(2 * k, k + 1);
    AtMostIsTail(2 * k, k);
    if k == 0 {
      NoFewerThanNone(0, -1);
    } else {
      AtMostIsTail(2 * k, k - 1);
      LowTailGrows(2 * k, k - 1, k);
    }
  }

  function Apart(a: nat, b: nat): nat {
    Max(a, b) - Min(a, b)
  }

  lemma RatioMonotone(x: real, y: real, d: real)
    requires d > 0.0
    ensures x < y <==> x / d < y / d
  {
    var p, q := x / d, y / d;
    assert x == p * d && y == q * d;
    ScaleMonotone(p, q, d);
  }

  lemma ScaleMonotone(p: real, q: real, d: real)
    requires d > 0.0
    ensures p < q <==> p * d < q * d
  {
    assert q * d - p * d == (q - p) * d;
    if p < q {
      assert (q - p) * d > 0.0;
    } else {
      assert (p - q) * d >= 0.0;
    }
  }

  lemma DoubledRatio(x: real, d: real)
    requires d > 0.0
    ensures 2.0 * (x / d) == (2.0 * x) / d && d / d == 1.0
  {
  }

  lemma DoubledTail(tail: nat, all: nat)
    requires all > 0
    ensures 2.0 * Ratio(tail, all) == Ratio(2 * tail, all) && Ratio(all, all) == 1.0
    ensures 2.0 * Ratio(tail, all) < 1.0 <==> 2 * tail < all
  {
    DoubledRatio(tail as real, all as real);
    RatioMonotone((2 * tail) as real, all as real, all as real);
  }

  lemma MoreFallsMoreChance(a: nat, b: nat, all: nat)
    requires a < b && all > 0
    ensures Ratio(a, all) < Ratio(b, all)
  {
    RatioMonotone(a as real, b as real, all as real);
  }

  /** The p-value is the chance that fair coins fall at least as unevenly. */
  lemma PValueIsChance(l: nat, r: nat)
    ensures PValue(l, r) == Ratio(Coins(l + r, 0, 0, Apart(l, r)), Pow2(l + r))
  {
    hide Coins, LowTail, Pow2, Ratio;
    var n, lo, hi := l + r, Min(l, r), Max(l, r);
    assert lo + hi == n;
    DoubledTail(LowTail(n, lo), Pow2(n));
    if lo == hi {
      EveryFall(n, 0, 0);
      EvenSplit(lo);
    } else {
      UnevenFalls(lo, hi);
    }
  }

  /** The p-value does not depend on which loop is called left, is positive and at most 1, is 1
      exactly when the disagreements split as evenly as they can, and gets strictly smaller as
      the same number of disagreements splits less evenly. */
  lemma PValueLaws(l: nat, r: nat)
    ensures PValue(l, r) == PValue(r, l)
    ensures 0.0 < PValue(l, r) <= 1.0
    ensures PValue(l, r) == 1.0 <==> Apart(l, r) <= 1
    ensures forall l': nat, r': nat :: l' + r' == l + r && Max(1, Apart(l, r)) < Apart(l', r') ==>
              PValue(l', r') < PValue(l, r)
  {
    PValueShape(l, r);
    forall l': nat, r': nat | l' + r' == l + r && Max(1, Apart(l, r)) < Apart(l', r')
      ensures PValue(l', r') < PValue(l, r)
    {
      PValueShape(l', r');
      if Apart(l, r) > 1 {
        var n := l + r;
        LowTailGrows(n, Min(l', r'), Min(l, r));
        MoreFallsMoreChance(2 * LowTail(n, Min(l', r')), 2 * LowTail(n, Min(l, r)), Pow2(n));
      }
    }
  }

  lemma {:induction false} TailPositive(n: nat, m: nat)
    requires m <= n
    ensures LowTail(n, m) >= 1 && Ratio(0, Pow2(n)) == 0.0
  {
    hide Pow2;
    ChoosePositive(n, m);
  }

  lemma PValueShape(l: nat, r: nat)
    ensures PValue(l, r) == PValue(r, l)
    ensures 0.0 < PValue(l, r) <= 1.0
    ensures if Apart(l, r) <= 1 then PValue(l, r) == 1.0
            else PValue(l, r) < 1.0 && PValue(l, r) == Ratio(2 * LowTail(l + r, Min(l, r)), Pow2(l + r))
  {
    hide LowTail, Pow2, Ratio;
    var n, lo, hi := l + r, Min(l, r), Max(l, r);
    assert lo + hi == n;
    DoubledTail(LowTail(n, lo), Pow2(n));
    if lo == hi {
      EvenSplit(lo);
    } else {
      UnevenFalls(lo, hi);
      TailPositive(n, lo);
      MoreFallsMoreChance(0, 2 * LowTail(n, lo), Pow2(n));
    }
  }
}
