/** Powers of two, products and quotients of naturals. */
module Powers {

  function Pow2(n: nat): (p: nat)
    ensures p > 0
  {
    if n == 0 then 1 else 2 * Pow2(n - 1)
  }

  lemma {:induction false} Pow2Add(a: nat, b: nat)
    ensures Pow2(a + b) == Pow2(a) * Pow2(b)
  {
    if a > 0 {
      Pow2Add(a - 1, b);
      assert Pow2(a) * Pow2(b) == 2 * (Pow2(a - 1) * Pow2(b));
    }
  }

  lemma Pow2Zero()
    ensures Pow2(0) == 1
  {}

  lemma Doubled(a: nat, k: nat)
    ensures a * Pow2(k + 1) == 2 * (a * Pow2(k))
  {}

  lemma Reassociate(a: int, b: int, c: int)
    ensures a * b * c == a * (b * c)
  {}

  lemma Distribute(a: int, b: int, c: int)
    ensures (a + b) * c == a * c + b * c
  {}

  function Product(a: nat, b: nat): (p: nat)
    ensures p == a * b
  {
    assert a * b >= 0;
    a * b
  }

  lemma MulMonotone(a: int, b: int, n: nat)
    ensures a <= b ==> a * n <= b * n && n * a <= n * b
  {
    Distribute(b - a, a, n);
  }

  function Least(a: nat, b: nat): (m: nat)
    ensures m <= a && m <= b
  {
    if a < b then a else b
  }

  /** Multiplying by a positive weight keeps the order of two naturals. */
  lemma Scale(a: nat, b: nat, w: nat)
    requires w > 0
    ensures a * w >= 0 && b * w >= 0
    ensures (a < b <==> a * w < b * w) && (a == b <==> a * w == b * w)
  {
    Distribute(b - a, a, w);
    if a < b { assert (b - a) * w > 0; }
    if b < a { assert (b - a) * w < 0; }
  }

  /** Quotient and remainder are unique. */
  lemma DivUnique(x: nat, b: nat, q: nat, r: nat)
    requires r < b && x == q * b + r
    ensures x / b == q && x % b == r
  {
    var q', r' := x / b, x % b;
    assert x == q' * b + r' && 0 <= r' < b;
    Distribute(q' - q, q, b);
    assert (q' - q) * b == r - r';
    Apart(q' - q, b);
  }

  lemma Apart(k: int, b: int)
    requires b > 0
    ensures k >= 1 ==> k * b >= b
    ensures k <= -1 ==> k * b <= -b
  {}

  /** Nested digits. */
  lemma Nested(a: nat, b: nat, q: nat, r: nat, q2: nat, r2: nat)
    requires r < a && r2 < b && q == q2 * b + r2
    ensures q * a + r == q2 * (a * b) + (r2 * a + r) && 0 <= r2 * a + r < a * b
  {
    Distribute(q2 * b, r2, a);
    Reassociate(q2, b, a);
    Distribute(b - r2 - 1, r2 + 1, a);
    Distribute(r2, 1, a);
    assert (b - r2 - 1) * a >= 0;
  }

  lemma Quotients(x: nat, a: nat)
    requires a > 0
    ensures 0 <= x / a && 0 <= x % a < a && x == x / a * a + x % a
  {}

  /** Shifting twice is shifting by the sum. */
  lemma DivDiv(x: nat, a: nat, b: nat)
    requires a > 0 && b > 0
    ensures a * b > 0 && 0 <= x / a && x / (a * b) == x / a / b
  {
    Quotients(x, a);
    var q: nat, r: nat := x / a, x % a;
    Quotients(q, b);
    var q2: nat, r2: nat := q / b, q % b;
    Nested(a, b, q, r, q2, r2);
    DivUnique(x, a * b, q2, r2 * a + r);
  }
}
