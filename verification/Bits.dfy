/** Bitwise and, or and exclusive or of unsigned integers, by binary digits, and the
arithmetic readings the codecs use.
*/
module Bits {
  function And(a: nat, b: nat): (r: nat)
    ensures r <= a && r <= b
  {
    if a == 0 || b == 0 then 0 else (if a % 2 + b % 2 == 2 then 1 else 0) + 2 * And(a / 2, b / 2)
  }

  function Or(a: nat, b: nat): (r: nat) {
    if a == 0 then b else if b == 0 then a else (if a % 2 + b % 2 > 0 then 1 else 0) + 2 * Or(a / 2, b / 2)
  }

  function Xor(a: nat, b: nat): (r: nat) {
    if a == 0 then b else if b == 0 then a else (a % 2 + b % 2) % 2 + 2 * Xor(a / 2, b / 2)
  }

  function Pow2(k: nat): (r: nat)
    ensures r > 0
  {
    if k == 0 then 1 else 2 * Pow2(k - 1)
  }

  /** Halving a product with a power of two. */
  lemma HalfOfPower(b: nat, k: nat)
    requires k > 0
    ensures b * Pow2(k) == 2 * (b * Pow2(k - 1)) && b * Pow2(k) % 2 == 0 && b * Pow2(k) / 2 == b * Pow2(k - 1)
  {
    var p, x := Pow2(k - 1), b * Pow2(k - 1);
    assert b * (2 * p) == 2 * x;
  }

  /** The low `k` bits. */
  function Low(a: nat, k: nat): (r: nat) { a % Pow2(k) }

  lemma LowStep(a: nat, k: nat)
    ensures k == 0 ==> Low(a, k) == 0
    ensures k > 0 ==> Low(a, k) == a % 2 + 2 * Low(a / 2, k - 1)
  {
    if k == 0 {
      RemainderIs(a, a, 1, 0);
    } else {
      HalfRemainder(a, Pow2(k - 1));
    }
  }

  /** Masking with `k` ones is the remainder. */
  lemma {:induction false} AndOnes(a: nat, k: nat)
    ensures And(a, Pow2(k) - 1) == Low(a, k)
  {
    hide Low;
    LowStep(a, k);
    if k > 0 {
      AndOnes(a / 2, k - 1);
      AndStep(a, Pow2(k - 1) - 1);
    }
  }

  lemma AndStep(a: nat, b: nat)
    ensures And(a, 2 * b + 1) == a % 2 + 2 * And(a / 2, b)
    ensures And(a, 2 * b) == 2 * And(a / 2, b)
  {
    assert (2 * b + 1) / 2 == b && (2 * b + 1) % 2 == 1 && 2 * b / 2 == b && 2 * b % 2 == 0;
  }

  lemma HalfRemainder(a: nat, p: nat)
    requires p > 0
    ensures a % (2 * p) == a % 2 + 2 * (a / 2 % p)
  {
    var h := a / 2;
    var q, r := h / p, h % p;
    assert h == q * p + r;
    var m := a % 2 + 2 * r;
    assert a == 2 * (q * p + r) + a % 2;
    assert 2 * (q * p) == q * (2 * p);
    RemainderIs(a, q, 2 * p, m);
  }

  lemma RemainderIs(a: nat, q: nat, d: nat, m: nat)
    requires d > 0 && a == q * d + m && m < d
    ensures a % d == m && a / d == q
  {
    var q', m' := a / d, a % d;
    assert a == q' * d + m';
    if q' > q {
      Apart(q, q', d);
    } else if q > q' {
      Apart(q', q, d);
    }
  }

  lemma Apart(q: nat, q': nat, d: nat)
    requires q < q'
    ensures q * d + d <= q' * d
  {
    var k := q' - q;
    assert (q + k) * d == q * d + k * d;
    assert k * d >= d by { assert (k - 1) * d >= 0; assert k * d == (k - 1) * d + d; }
  }

  lemma XorNothing(a: nat)
    ensures Xor(a, 0) == a
  {
  }

  /** Complementing the low `k` bits. */
  lemma {:induction false} XorOnes(a: nat, k: nat)
    requires a < Pow2(k)
    ensures Xor(a, Pow2(k) - 1) == Pow2(k) - 1 - a
  {
    if k > 0 {
      XorOnes(a / 2, k - 1);
    }
  }

  /** Or-ing in bits above the ones in use adds them. */
  lemma {:induction false} OrAbove(a: nat, b: nat, k: nat)
    requires a < Pow2(k)
    ensures Or(a, b * Pow2(k)) == a + b * Pow2(k)
  {
    if k > 0 {
      HalfOfPower(b, k);
      OrAbove(a / 2, b, k - 1);
    }
  }

  /** Masking away the low `k` of `n` bits. */
  lemma {:induction false} AndHigh(a: nat, k: nat, n: nat)
    requires k <= n && a < Pow2(n)
    ensures Pow2(k) <= Pow2(n) && And(a, Pow2(n) - Pow2(k)) == a - Low(a, k)
    decreases n
  {
    hide Low;
    PowGrows(k, n);
    LowStep(a, k);
    if k == 0 {
      AndOnes(a, n);
      LowIsAll(a, n);
    } else {
      AndHigh(a / 2, k - 1, n - 1);
      AndStep(a, Pow2(n - 1) - Pow2(k - 1));
    }
  }

  lemma LowIsAll(a: nat, k: nat)
    requires a < Pow2(k)
    ensures Low(a, k) == a
  {
    RemainderIs(a, 0, Pow2(k), a);
  }

  lemma {:induction false} PowGrows(k: nat, n: nat)
    requires k <= n
    ensures Pow2(k) <= Pow2(n)
  {
    if k < n { PowGrows(k, n - 1); }
  }
}
