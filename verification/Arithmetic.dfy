// Products, quotients and remainders, kept away from the proofs that use them.
module Arithmetic {
  const WORD32 := 0x1_0000_0000
  const WORD64 := 0x1_0000_0000_0000_0000

  function Abs(x: real): real {
    if x < 0.0 then -x else x
  }

  lemma MulPred(x: int, y: int)
    ensures (x - 1) * y == x * y - y
  {
  }

  lemma MulAdd(x: int, y: int, z: int)
    ensures (x + y) * z == x * z + y * z
  {
  }

  lemma MulMono(x: int, y: int, z: int)
    requires x <= y && z >= 0
    ensures x * z <= y * z
  {
    MulAdd(x, y - x, z);
    MulSign(y - x, z);
  }

  lemma MulSign(x: int, y: int)
    requires x >= 0 && y >= 0
    ensures x * y >= 0
  {
  }

  // A quotient and remainder are the only ones.
  lemma DivModUnique(x: int, m: int, q: int, r: int)
    requires m > 0 && x == q * m + r && 0 <= r < m
    ensures x / m == q && x % m == r
  {
    var d := x / m - q;
    assert d * m == r - x % m by { MulAdd(x / m, -q, m); }
    if d >= 1 {
      MulMono(1, d, m);
    } else if d <= -1 {
      MulMono(d, -1, m);
    }
  }

  lemma ModPeriod(x: int, m: int)
    requires m > 0
    ensures (x + m) % m == x % m
  {
    MulAdd(x / m, 1, m);
    DivModUnique(x + m, m, x / m + 1, x % m);
  }

  // Two numbers closer than m have different remainders.
  lemma ModDistinct(x: int, y: int, m: int)
    requires 0 < m && x < y < x + m
    ensures x % m != y % m
  {
    var q := x / m;
    if x % m + (y - x) < m {
      DivModUnique(y, m, q, x % m + (y - x));
    } else {
      MulAdd(q, 1, m);
      DivModUnique(y, m, q + 1, x % m + (y - x) - m);
    }
  }

  // ---------------------------------------------------------------- the same over the reals

  lemma MulPos(a: real, b: real)
    requires a > 0.0 && b > 0.0
    ensures a * b > 0.0
  {
  }

  lemma MulSucc(n: real, x: real)
    ensures (n + 1.0) * x == n * x + x
  {
  }

  lemma MulCancel(a: real, b: real, c: real)
    requires b > 0.0 && a * b <= c * b
    ensures a <= c
  {
    assert (a - c) * b == a * b - c * b;
    if a > c { MulPos(a - c, b); }
  }

  lemma DivTimes(a: real, b: real)
    requires b > 0.0
    ensures a / b * b == a
    ensures a >= 0.0 ==> a / b >= 0.0
    ensures a > 0.0 ==> a / b > 0.0
  {
  }

  lemma DivAtMost(a: real, b: real, c: real)
    requires b > 0.0 && a <= c * b
    ensures a / b <= c
  {
    DivTimes(a, b);
    MulCancel(a / b, b, c);
  }

  lemma MulMonoR(a: real, b: real, c: real)
    requires a <= b && c >= 0.0
    ensures c * a <= c * b
  {
    assert c * (b - a) >= 0.0;
  }

  // A square under a name of its own, so that equal squares are seen to be equal without arithmetic.
  function Squared(x: real): real {
    x * x
  }

  lemma SquaredSign(x: real)
    ensures Squared(x) >= 0.0 && (Squared(x) == 0.0 <==> x == 0.0)
  {
    SameSign(x, x);
  }

  lemma SameSign(x: real, y: real)
    requires (x >= 0.0 <==> y >= 0.0) && (x == 0.0 <==> y == 0.0)
    ensures x * y >= 0.0 && (x * y == 0.0 <==> x == 0.0)
  {
    if x > 0.0 {
      MulPos(x, y);
    } else if x < 0.0 {
      MulPos(-x, -y);
    }
  }

  lemma DivAtLeast(a: real, b: real, c: real)
    requires b > 0.0 && c * b <= a
    ensures c <= a / b
  {
    DivTimes(a, b);
    MulCancel(c, b, a / b);
  }
}
