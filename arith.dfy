/** Integer facts shared by the cursor and the sample renderer: the
    uniqueness of Euclidean division and how `%` steps by one. */
module Arith {

  function Abs(x: int): int { if x < 0 then -x else x }

  function Min(a: int, b: int): int { if a < b then a else b }

  /** The only multiple of b strictly between -|b| and |b| is zero. */
  lemma SmallMultiple(k: int, b: int)
    requires b != 0 && -Abs(b) < k * b < Abs(b)
    ensures k == 0
  {
  }

  /** Multiplication distributes over subtraction. */
  lemma MulSubDistrib(a: int, c: int, b: int)
    ensures (a - c) * b == a * b - c * b
  {
  }

  /** Division and remainder by a positive number are determined by the
      equation t == q * den + r with 0 <= r < den. */
  lemma DivModUnique(t: int, den: int, q: int, r: int)
    requires den > 0 && 0 <= r < den && t == q * den + r
    ensures t / den == q && t % den == r
  {
    var q', r' := t / den, t % den;
    assert (q - q') * den == r' - r;
    SmallMultiple(q - q', den);
  }

  /** Adding one to x moves x % m up by one, wrapping from m - 1 to 0. */
  lemma ModSucc(x: int, m: int)
    requires m > 0
    ensures (x + 1) % m == if x % m == m - 1 then 0 else x % m + 1
  {
    var q, r := x / m, x % m;
    if r == m - 1 {
      DivModUnique(x + 1, m, q + 1, 0);
    } else {
      DivModUnique(x + 1, m, q, r + 1);
    }
  }

  /** Subtracting one from x moves x % m down by one, wrapping from 0 to
      m - 1. */
  lemma ModPred(x: int, m: int)
    requires m > 0
    ensures (x - 1) % m == if x % m == 0 then m - 1 else x % m - 1
  {
    var q, r := x / m, x % m;
    if r == 0 {
      DivModUnique(x - 1, m, q - 1, m - 1);
    } else {
      DivModUnique(x - 1, m, q, r - 1);
    }
  }

  /** Reducing a summand modulo m first does not change the sum modulo m. */
  lemma ModAddMod(a: int, b: int, m: int)
    requires m > 0
    ensures (a % m + b) % m == (a + b) % m
  {
    var qa, ra := a / m, a % m;
    var q2, r2 := (ra + b) / m, (ra + b) % m;
    DivModUnique(a + b, m, qa + q2, r2);
  }
}
