/** Facts about division with remainder by a variable divisor. */
module DivMod {
  lemma MultipleAtLeast(c: int, d: int)
    requires c > 0 && d >= 1
    ensures c * d >= c
  {
  }

  lemma SmallMultiple(c: int, d: int)
    requires c > 0 && -c < c * d < c
    ensures d == 0
  {
    if d >= 1 { MultipleAtLeast(c, d); }
    if d <= -1 { MultipleAtLeast(c, -d); }
  }

  /** Quotient and remainder are unique. */
  lemma Unique(x: int, c: int, q: int, r: int)
    requires c > 0 && x == q * c + r && 0 <= r < c
    ensures x / c == q && x % c == r
  {
    var q', r' := x / c, x % c;
    assert x == c * q' + r';
    assert c * (q - q') == r' - r;
    SmallMultiple(c, q - q');
  }

  lemma TimesMonotone(a: int, b: int, c: int)
    requires a <= b && c >= 0
    ensures a * c <= b * c
  {
    assert (b - a) * c >= 0;
    assert b * c - a * c == (b - a) * c;
  }

  /** A number below k times c has a quotient below k. */
  lemma QuotientBelow(n: nat, c: int, k: int)
    requires c > 0 && n < k * c
    ensures 0 <= n / c < k
  {
    if n / c >= k { TimesMonotone(k, n / c, c); }
  }

  lemma QuotientAtLeast(n: nat, c: int, k: int)
    requires c > 0 && n >= k * c
    ensures n / c >= k
  {
    if n / c < k {
      assert n == (n / c) * c + n % c;
      TimesMonotone(n / c + 1, k, c);
    }
  }

  function Quotient(n: nat, c: nat): (q: nat)
    requires c > 0
    ensures q == n / c
  {
    QuotientAtLeast(n, c, 0);
    n / c
  }

  /** Numbers less than c apart have different remainders. */
  lemma Separate(i: int, j: int, c: int)
    requires c > 0 && i < j < i + c
    ensures i % c != j % c
  {
    if i % c == j % c {
      assert j - i == c * (j / c - i / c) by {
        assert i == c * (i / c) + i % c && j == c * (j / c) + j % c;
      }
      SmallMultiple(c, j / c - i / c);
    }
  }

  lemma Distribute(a: int, b: int, p: int)
    ensures a * p + b * p == (a + b) * p
  {
  }

  lemma TimesTen(a: int, p: int)
    ensures a * (10 * p) == (10 * a) * p == 10 * (a * p)
  {
  }

  lemma NextQuotient(n: int, c: int)
    requires c > 0
    ensures (n + 1) / c == if n % c + 1 == c then n / c + 1 else n / c
    ensures (n + 1) % c == if n % c + 1 == c then 0 else n % c + 1
  {
    assert n == (n / c) * c + n % c;
    if n % c + 1 == c {
      Distribute(n / c, 1, c);
      Unique(n + 1, c, n / c + 1, 0);
    } else {
      Unique(n + 1, c, n / c, n % c + 1);
    }
  }
}
