/** Products, quotients and remainders of integers. */
module Arithmetic {

  lemma {:induction false} Distribute(a: int, b: int, c: int)
    ensures (a + b) * c == a * c + b * c && c * (a + b) == c * a + c * b
  {
  }

  lemma {:induction false} Associate(a: int, b: int, c: int)
    ensures (a * b) * c == a * (b * c) && a * (b * c) == b * (a * c)
  {
  }

  lemma {:induction false} TimesMono(a: nat, b: nat, c: nat)
    requires a <= b
    ensures a * c <= b * c && c * a <= c * b
  {
  }

  lemma {:induction false} DivMod(n: nat, m: nat)
    requires m > 0
    ensures n == (n / m) * m + n % m && 0 <= n % m < m && n / m >= 0
  {
  }

  /** Quotient and remainder are determined. */
  lemma {:induction false} DivUnique(n: nat, m: nat, q: nat, r: nat)
    requires n == q * m + r && r < m
    ensures n / m == q && n % m == r
  {
    DivMod(n, m);
    Above(n / m, q, m);
    Above(q, n / m, m);
  }

  lemma {:induction false} Above(a: nat, b: nat, m: nat)
    ensures a < b ==> a * m + m <= b * m
  {
    if a < b {
      TimesMono(a + 1, b, m);
      Distribute(a, 1, m);
    }
  }

  /** n modulo m */
  ghost function Mod(n: nat, m: nat): nat
    requires m > 0
  {
    n % m
  }

  /** Adding a multiple does not change the remainder. */
  lemma {:induction false} ModPlus(n: nat, k: nat, m: nat)
    requires m > 0
    ensures (n + k * m) % m == n % m
  {
    DivMod(n, m);
    Distribute(n / m, k, m);
    DivUnique(n + k * m, m, n / m + k, n % m);
  }

  lemma {:induction false} ModSmall(n: nat, m: nat)
    requires n < m
    ensures n % m == n && n / m == 0
  {
    DivUnique(n, m, 0, n);
  }
}
