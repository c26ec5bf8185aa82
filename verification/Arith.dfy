/** Products, quotients and remainders by a variable, defined by repeated addition and subtraction so that the
    solver unfolds one step at a time; QuotRemIsDivMod and TimesIsProduct identify them with the operators. */
module Arith {

  function Max(a: int, b: int): int { if a < b then b else a }

  function Min(a: int, b: int): int { if a < b then a else b }

  /** a * b */
  function Times(a: nat, b: nat): nat { if a == 0 then 0 else Times(a - 1, b) + b }

  /** a / b */
  function Quot(a: nat, b: int): nat
    requires 1 <= b
  {
    if a < b then 0 else Quot(a - b, b) + 1
  }

  /** a % b */
  function Rem(a: nat, b: int): (r: nat)
    requires 1 <= b
    ensures r < b && r <= a
  {
    if a < b then a else Rem(a - b, b)
  }

  lemma {:induction false} TimesIsProduct(a: nat, b: nat)
    ensures Times(a, b) == a * b
  {
    if a > 0 {
      TimesIsProduct(a - 1, b);
    }
  }

  lemma {:induction false} TimesMonotone(a: nat, c: nat, b: nat)
    requires a <= c
    ensures Times(a, b) <= Times(c, b)
  {
    if a < c {
      TimesMonotone(a, c - 1, b);
    }
  }

  lemma {:induction false} TimesAdds(a: nat, b: nat, c: nat)
    ensures Times(a, b + c) == Times(a, b) + Times(a, c)
  {
    if a > 0 {
      TimesAdds(a - 1, b, c);
    }
  }

  lemma {:induction false} TimesShift(a: nat, k: nat, b: nat)
    ensures Times(a + k, b) == Times(a, b) + Times(k, b)
  {
    if k > 0 {
      TimesShift(a, k - 1, b);
    }
  }

  /** Division with remainder: every a is quotient times divisor plus remainder, and only these two fit. */
  lemma {:induction false} QuotRemUnique(a: nat, b: int, q: nat, r: nat)
    requires 1 <= b && r < b
    ensures a == Times(q, b) + r <==> q == Quot(a, b) && r == Rem(a, b)
  {
    if a < b {
      if q > 0 {
        TimesMonotone(1, q, b);
        assert Times(1, b) == Times(0, b) + b == b;
      }
    } else if q > 0 {
      QuotRemUnique(a - b, b, q - 1, r);
    }
  }

  lemma {:induction false} QuotRemIsDivMod(a: nat, b: int)
    requires 1 <= b
    ensures Quot(a, b) == a / b && Rem(a, b) == a % b
  {
    TimesIsProduct(a / b, b);
    assert a == b * (a / b) + a % b && b * (a / b) == (a / b) * b;
    QuotRemUnique(a, b, a / b, a % b);
  }

  lemma DivModUnique(x: nat, m: nat, q: nat, r: nat)
    requires r < m && x == q * m + r
    ensures x / m == q && x % m == r
  {
    TimesIsProduct(q, m);
    QuotRemUnique(x, m, q, r);
    QuotRemIsDivMod(x, m);
  }

  /** A remainder by twice p, from the halves. */
  lemma Halves(x: nat, p: nat)
    requires 1 <= p
    ensures x % (2 * p) == 2 * (x / 2 % p) + x % 2
    ensures x / 2 / p == x / (2 * p)
  {
    var q, r := x / 2 / p, x / 2 % p;
    assert x / 2 == q * p + r;
    assert q * (2 * p) == 2 * (q * p);
    DivModUnique(x, 2 * p, q, 2 * r + x % 2);
  }

  /** Fewer than n apart means different remainders. */
  lemma {:induction false} RemDistinct(i: nat, j: nat, n: int)
    requires 1 <= n && i < j < i + n
    ensures Rem(i, n) != Rem(j, n)
  {
    if i >= n {
      RemDistinct(i - n, j - n, n);
    }
  }
}
