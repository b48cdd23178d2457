/** Division with remainder. */
module Numbers {

  lemma SmallMultiple(x: int, size: nat)
    requires 0 < size && 0 - size < x * size < size
    ensures x == 0
  {
  }

  /** Quotient and remainder are unique. */
  lemma Quotient(n: nat, m: nat, q: nat, r: nat)
    requires r < m && n == q * m + r
    ensures n / m == q && n % m == r
  {
    assert (n / m - q) * m == r - n % m;
    SmallMultiple(n / m - q, m);
  }

  lemma Division(n: nat, m: nat) returns (q: nat, r: nat)
    requires m > 0
    ensures q == n / m && r == n % m && n == q * m + r
  {
    q, r := n / m, n % m;
  }

  /** A step that stays below the next multiple. */
  lemma ShortStep(n: nat, m: nat, k: nat)
    requires m > 0 && k < m - n % m
    ensures (n + k) / m == n / m && (n + k) % m == n % m + k
  {
    var q, r := Division(n, m);
    Quotient(n + k, m, q, r + k);
  }

  // ---- binary digits ----

  lemma Halved(n: nat)
    ensures n == n / 2 * 2 + n % 2
  {
  }

  lemma Quartered(n: nat)
    ensures n / 4 == n / 2 / 2
  {
  }

  lemma Eighth(n: nat)
    ensures n / 8 == n / 4 / 2
  {
  }

  /** A number's low digits, and what is left of it above them. */
  lemma FromDigits(n: nat, high: nat, z: nat, y: nat, x: nat)
    requires n == high * 8 + z * 4 + y * 2 + x && z < 2 && y < 2 && x < 2
    ensures n % 4 == y * 2 + x
    ensures n % 8 == z * 4 + y * 2 + x
  {
    Quotient(n, 4, high * 2 + z, y * 2 + x);
    Quotient(n, 8, high, z * 4 + y * 2 + x);
  }

  lemma LowDigits(n: nat)
    ensures n % 4 == n / 2 % 2 * 2 + n % 2
    ensures n % 8 == n / 4 % 2 * 4 + n / 2 % 2 * 2 + n % 2
  {
    Halved(n);
    Halved(n / 2);
    Halved(n / 4);
    Quartered(n);
    Eighth(n);
    FromDigits(n, n / 8, n / 4 % 2, n / 2 % 2, n % 2);
  }
}
