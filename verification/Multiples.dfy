/** Multiples of a segment size. */
module Multiples {

  lemma ModStep(x: nat, s: nat)
    requires s > 0
    ensures (x + s) % s == x % s
  {
    var q := x / s;
    assert x + s == (q + 1) * s + x % s;
    ModUnique(x + s, q + 1, x % s, s);
  }

  lemma ModUnique(x: nat, q: nat, r: nat, s: nat)
    requires x == q * s + r && r < s
    ensures x / s == q && x % s == r
  {
    var d := x / s - q;
    assert d * s == r - x % s by {
      assert x == (x / s) * s + x % s;
      assert (x / s - q) * s == (x / s) * s - q * s;
    }
    MulAtLeast(d, s);
    MulAtLeast(-d, s);
    assert (-d) * s == -(d * s);
  }

  lemma MulAtLeast(d: int, s: nat)
    ensures d >= 1 ==> d * s >= s
  {
    if d >= 1 {
      assert d * s == (d - 1) * s + s;
    }
  }

  /** The least multiple of `s` that is at least `x`; 0 when `x` is negative. */
  function RoundUp(x: int, s: nat): nat
    requires s > 0
  {
    if x <= 0 then 0 else MulNonNegative((x + s - 1) / s, s); ((x + s - 1) / s) * s
  }

  function RoundDown(x: nat, s: nat): nat
    requires s > 0
  {
    MulNonNegative(x / s, s);
    (x / s) * s
  }

  lemma MulNonNegative(a: nat, b: nat)
    ensures a * b >= 0
  {
  }

  lemma MultipleGap(x: nat, y: nat, s: nat)
    requires s > 0 && x % s == 0 && y % s == 0 && x < y
    ensures x + s <= y
  {
    var a, b := x / s, y / s;
    assert x == a * s && y == b * s;
    assert b - a >= 1 by {
      if b <= a {
        assert (a - b) * s == x - y;
        MulNonNegative(a - b, s);
      }
    }
    MulAtLeast(b - a, s);
    assert (b - a) * s == y - x;
  }

  lemma MultipleIsMultiple(a: nat, s: nat)
    requires s > 0
    ensures a * s >= 0 && (a * s) % s == 0
  {
    MulNonNegative(a, s);
    ModUnique(a * s, a, 0, s);
  }

  lemma RoundUpFacts(x: int, s: nat)
    requires s > 0
    ensures RoundUp(x, s) % s == 0 && x <= RoundUp(x, s)
    ensures x > 0 ==> RoundUp(x, s) < x + s
  {
    if x > 0 {
      var y := x + s - 1;
      assert y == (y / s) * s + y % s;
      MultipleIsMultiple(y / s, s);
    } else {
      ModUnique(0, 0, 0, s);
    }
  }

  lemma RoundUpLeast(x: int, y: nat, s: nat)
    requires s > 0 && y % s == 0 && x <= y
    ensures RoundUp(x, s) <= y
  {
    RoundUpFacts(x, s);
    if y < RoundUp(x, s) {
      MultipleGap(y, RoundUp(x, s), s);
    }
  }

  lemma RoundUpMonotone(x: int, y: int, s: nat)
    requires s > 0 && x <= y
    ensures RoundUp(x, s) <= RoundUp(y, s)
  {
    RoundUpFacts(y, s);
    RoundUpLeast(x, RoundUp(y, s), s);
  }

  lemma RoundDownUnique(x: nat, y: nat, s: nat)
    requires s > 0 && y % s == 0 && y <= x < y + s
    ensures RoundDown(x, s) == y
  {
    assert y == (y / s) * s;
    ModUnique(x, y / s, x - y, s);
  }

  /** `n / s` rounded up. */
  function CeilDiv(n: nat, s: nat): nat
    requires s > 0
  {
    (n + s - 1) / s
  }

  lemma CeilDivOf(q: nat, r: nat, s: nat)
    requires 0 < r <= s
    ensures q * s >= 0 && CeilDiv(q * s + r, s) == q + 1
  {
    MulNonNegative(q, s);
    assert (q + 1) * s == q * s + s;
    ModUnique(q * s + r + s - 1, q + 1, r - 1, s);
  }

  lemma CeilDivZero(s: nat)
    requires s > 0
    ensures CeilDiv(0, s) == 0
  {
    ModUnique(s - 1, 0, s - 1, s);
  }

  lemma CeilDivMultiple(n: nat, s: nat)
    requires s > 0 && n % s == 0
    ensures CeilDiv(n, s) == n / s
  {
    var q := n / s;
    assert n == q * s;
    ModUnique(n + s - 1, q, s - 1, s);
  }

  /** One step of at most `s` past a multiple of `s` is one more. */
  lemma CeilDivAdd(n: nat, d: nat, s: nat)
    requires s > 0 && n % s == 0 && 0 < d <= s
    ensures CeilDiv(n + d, s) == CeilDiv(n, s) + 1
  {
    assert n == (n / s) * s;
    CeilDivMultiple(n, s);
    CeilDivOf(n / s, d, s);
  }

  lemma CeilDivStep(n: nat, s: nat)
    requires s > 0
    ensures CeilDiv(n + 1, s) == CeilDiv(n, s) + (if n % s == 0 then 1 else 0)
    ensures (n + 1) % s == if n % s == s - 1 then 0 else n % s + 1
  {
    var q, r := n / s, n % s;
    assert n == q * s + r;
    assert (q + 1) * s == q * s + s;
    if r == s - 1 {
      ModUnique(n + 1, q + 1, 0, s);
    } else {
      ModUnique(n + 1, q, r + 1, s);
    }
    CeilDivOf(q, r + 1, s);
    if r == 0 {
      CeilDivMultiple(n, s);
    } else {
      CeilDivOf(q, r, s);
    }
  }

  lemma RoundUpIsCeil(n: nat, s: nat)
    requires s > 0
    ensures CeilDiv(n, s) * s == RoundUp(n, s)
  {
    if n == 0 {
      CeilDivZero(s);
    }
  }
}
