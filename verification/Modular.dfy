/** Facts about remainders with a variable modulus. */
module Modular {

  /** Quotient and remainder are unique. */
  lemma Unique(m: nat, q: int, r: int, q': int, r': int)
    requires 0 <= r < m && 0 <= r' < m && q * m + r == q' * m + r'
    ensures q == q' && r == r'
  {
    assert (q' - q) * m == q' * m - q * m && (q - q') * m == q * m - q' * m;
    if q < q' {
      Grow(q' - q, m);
    } else if q' < q {
      Grow(q - q', m);
    }
  }

  lemma Grow(a: int, m: nat)
    requires a >= 1
    ensures a * m >= m
  {
    assert a * m == (a - 1) * m + m;
    assert (a - 1) * m >= 0;
  }

  lemma Monotone(a: int, b: int, m: nat)
    requires a <= b
    ensures a * m <= b * m
  {
    assert (b - a) * m >= 0;
    assert b * m == (b - a) * m + a * m;
  }

  lemma Remainder(k: int, m: nat, q: int, r: int)
    requires 0 <= r < m && k == q * m + r
    ensures k % m == r
  {
    Unique(m, q, r, k / m, k % m);
  }

  lemma Next(k: nat, m: nat)
    requires 0 < m
    ensures (k + 1) % m == if k % m + 1 == m then 0 else k % m + 1
  {
    var q, r := k / m, k % m;
    if r + 1 == m {
      assert k + 1 == (q + 1) * m + 0;
      Remainder(k + 1, m, q + 1, 0);
    } else {
      Remainder(k + 1, m, q, r + 1);
    }
  }

  /** The distance between two close positions can be read off their remainders. */
  lemma Distance(a: nat, b: nat, m: nat)
    requires b <= a < b + m
    ensures a - b == if a % m >= b % m then a % m - b % m else a % m + m - b % m
  {
    var q, r := b / m, b % m;
    var d := a - b;
    if r + d < m {
      assert a == q * m + (r + d);
      Remainder(a, m, q, r + d);
    } else {
      assert a == (q + 1) * m + (r + d - m);
      Remainder(a, m, q + 1, r + d - m);
    }
  }

  /** If n divides m, reducing modulo m first changes nothing modulo n. */
  lemma Through(k: nat, m: nat, n: nat)
    requires 0 < n && 0 < m && m % n == 0
    ensures (k % m) % n == k % n
  {
    var q, c := k / m, m / n;
    var r := k % m;
    assert m == c * n;
    assert k == q * m + r;
    assert q * m == (q * c) * n by { Assoc(q, c, n); }
    assert k == (q * c + r / n) * n + r % n by {
      assert (q * c + r / n) * n == (q * c) * n + (r / n) * n;
    }
    Remainder(k, n, q * c + r / n, r % n);
  }

  lemma Assoc(a: int, b: int, c: int)
    ensures a * (b * c) == (a * b) * c
  {
  }

  lemma DivideTwice(v: nat, a: nat, b: nat)
    requires 0 < a && 0 < b
    ensures v / (a * b) == v / a / b
  {
    var q, r := v / a, v % a;
    var q', r' := q / b, q % b;
    assert v == a * q + r && q == b * q' + r';
    assert a * (b * q') == q' * (a * b);
    assert a * q == a * (b * q') + a * r';
    Monotone(r' + 1, b, a);
    assert (r' + 1) * a == a * r' + a;
    Unique(a * b, v / (a * b), v % (a * b), q', a * r' + r);
  }
}
