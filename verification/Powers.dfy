/** Powers of two and the few division facts that the bit-level code needs. */
module Powers {

  function Pow2(k: nat): (p: int)
    ensures p >= 1
  {
    if k == 0 then 1 else 2 * Pow2(k - 1)
  }

  lemma {:induction false} Pow2Add(a: nat, b: nat)
    ensures Pow2(a + b) == Pow2(a) * Pow2(b)
  {
    if a > 0 {
      Pow2Add(a - 1, b);
    }
  }

  lemma MulNonNegative(a: int, b: int)
    requires a >= 0 && b >= 0
    ensures a * b >= 0
  {}

  // The only multiple of d strictly between -d and d is 0.
  lemma SmallMultiple(k: int, d: int)
    requires -d < k * d < d
    ensures k == 0
  {
    assert (k - 1) * d == k * d - d;
    assert (-k - 1) * d == -(k * d) - d;
    if k > 0 {
      MulNonNegative(k - 1, d);
    } else if k < 0 {
      MulNonNegative(-k - 1, d);
    }
  }

  // A quotient and a remainder determine the number, and the number determines them.
  lemma DivModUnique(n: int, d: int, q: int, r: int)
    requires d > 0 && n == q * d + r && 0 <= r < d
    ensures n / d == q && n % d == r
  {
    var q1, r1 := n / d, n % d;
    assert n == d * q1 + r1;
    assert (q1 - q) * d == d * q1 - q * d;
    SmallMultiple(q1 - q, d);
  }

  lemma DivDiv(n: int, a: int, b: int)
    requires a > 0 && b > 0
    ensures a * b > 0 && n / a / b == n / (a * b)
  {
    var q := n / a / b;
    var r := (n / a) % b;
    assert n == (q * b + r) * a + n % a;
    assert q * b * a == q * (a * b);
    assert 0 <= r * a <= (b - 1) * a;
    assert n == q * (a * b) + (r * a + n % a);
    DivModUnique(n, a * b, q, r * a + n % a);
  }

  lemma DivLess(n: int, a: int, b: int)
    requires a > 0 && b > 0 && 0 <= n < a * b
    ensures 0 <= n / a < b
  {
    var q := n / a;
    assert (q - b) * a == q * a - b * a;
    if q >= b {
      MulNonNegative(q - b, a);
    }
  }

  // Adding a multiple of the modulus changes nothing.
  lemma ModShift(n: int, d: int, q: int)
    requires d > 0
    ensures (n + q * d) % d == n % d
  {
    assert n + q * d == (n / d + q) * d + n % d;
    DivModUnique(n + q * d, d, n / d + q, n % d);
  }
}
