/** Machine integers and their byte encodings.

Rust's fixed-width integers are subset types of `int`, so every place where a
value could leave its range is a proof obligation or an explicit wrap.
*/
module Bytes {
  import W = Bits

  const TWO_8: int := 0x100
  const TWO_16: int := 0x1_0000
  const TWO_31: int := 0x8000_0000
  const TWO_32: int := 0x1_0000_0000
  const TWO_63: int := 0x8000_0000_0000_0000
  const TWO_64: int := 0x1_0000_0000_0000_0000

  type Byte = x: int | 0 <= x < 0x100
  type U16 = x: int | 0 <= x < 0x1_0000
  type U32 = x: int | 0 <= x < 0x1_0000_0000
  type U64 = x: int | 0 <= x < 0x1_0000_0000_0000_0000
  type I32 = x: int | -0x8000_0000 <= x < 0x8000_0000
  type I64 = x: int | -0x8000_0000_0000_0000 <= x < 0x8000_0000_0000_0000

  predicate FitsI64(x: int) { -TWO_63 <= x < TWO_63 }

  /** What a wrapping i64 addition or subtraction leaves of its exact result. */
  function WrapI64(x: int): (r: I64)
    requires -TWO_64 <= x < TWO_64
    ensures r == x || r == x - TWO_64 || r == x + TWO_64
    ensures FitsI64(x) ==> r == x
  {
    if x >= TWO_63 then x - TWO_64 else if x < -TWO_63 then x + TWO_64 else x
  }

  /** The bit pattern of a signed value in `modulus` values, and back. */
  function Unsigned(x: int, modulus: int): (u: int)
    requires 0 < modulus && modulus % 2 == 0 && -modulus / 2 <= x < modulus / 2
    ensures 0 <= u < modulus && Signed(u, modulus) == x
  {
    if x < 0 then x + modulus else x
  }

  function Signed(u: int, modulus: int): (x: int)
    requires 0 < modulus && modulus % 2 == 0 && 0 <= u < modulus
    ensures -modulus / 2 <= x < modulus / 2
  {
    if u < modulus / 2 then u else u - modulus
  }

  /** How many values `k` bytes can hold. */
  function Radix(k: nat): (r: nat)
    ensures r > 0
  {
    if k == 0 then 1 else 256 * Radix(k - 1)
  }

  /** Rust's `to_le_bytes` on a `k`-byte unsigned integer. */
  function ToLe(v: nat, k: nat): (s: seq<Byte>)
    ensures |s| == k
  {
    if k == 0 then [] else [v % 256] + ToLe(v / 256, k - 1)
  }

  function FromLe(s: seq<Byte>): (v: nat)
    ensures v < Radix(|s|)
  {
    if s == [] then 0 else
      assert FromLe(s[1..]) <= Radix(|s| - 1) - 1;
      s[0] + 256 * FromLe(s[1..])
  }

  /** Rust's `to_be_bytes` on a `k`-byte unsigned integer. */
  function ToBe(v: nat, k: nat): (s: seq<Byte>)
    ensures |s| == k
  {
    if k == 0 then [] else ToBe(v / 256, k - 1) + [v % 256]
  }

  function FromBe(s: seq<Byte>): (v: nat)
    ensures v < Radix(|s|)
  {
    if s == [] then 0 else
      assert FromBe(s[..|s| - 1]) <= Radix(|s| - 1) - 1;
      256 * FromBe(s[..|s| - 1]) + s[|s| - 1]
  }

  lemma {:induction false} LeRoundTrip(v: nat, k: nat)
    requires v < Radix(k)
    ensures FromLe(ToLe(v, k)) == v
  {
    if k > 0 {
      LeRoundTrip(v / 256, k - 1);
      assert ToLe(v, k)[1..] == ToLe(v / 256, k - 1);
    }
  }

  /** Any bytes are the encoding of what they decode to. */
  lemma {:induction false} LeOnto(s: seq<Byte>)
    ensures ToLe(FromLe(s), |s|) == s
  {
    if s != [] {
      LeOnto(s[1..]);
      assert s == [s[0]] + s[1..];
    }
  }

  /** Byte `i` of the little-endian form, and byte `i` from the end of the big-endian one,
      has weight 256^i. */
  lemma {:induction false} ByteOrder(v: nat, k: nat, i: nat)
    requires i < k
    ensures ToLe(v, k)[i] == v / Radix(i) % 256 && ToBe(v, k)[k - 1 - i] == v / Radix(i) % 256
  {
    if i > 0 {
      ByteOrder(v / 256, k - 1, i - 1);
      DivideTwice(v, Radix(i - 1));
    }
  }

  lemma DivideTwice(v: nat, r: nat)
    requires r > 0
    ensures v / 256 / r == v / (256 * r)
  {
    var q := v / (256 * r);
    var m := v % (256 * r);
    assert v == q * (256 * r) + m;
    assert q * (256 * r) == 256 * (q * r);
    assert v / 256 == q * r + m / 256;
    var h := m / 256;
    assert 0 <= h < r;
    W.RemainderIs(q * r + h, q, r, h);
  }

  lemma {:induction false} BeRoundTrip(v: nat, k: nat)
    requires v < Radix(k)
    ensures FromBe(ToBe(v, k)) == v
  {
    if k > 0 {
      BeRoundTrip(v / 256, k - 1);
      assert ToBe(v, k)[..k - 1] == ToBe(v / 256, k - 1);
    }
  }

  lemma {:induction false} BeOnto(s: seq<Byte>)
    ensures ToBe(FromBe(s), |s|) == s
  {
    if s != [] {
      var n := |s| - 1;
      BeOnto(s[..n]);
      assert s == s[..n] + [s[n]];
    }
  }

  lemma RadixValues()
    ensures Radix(1) == TWO_8 && Radix(2) == TWO_16 && Radix(4) == TWO_32 && Radix(8) == TWO_64
  {
    assert Radix(3) == 256 * Radix(2);
    assert Radix(5) == 256 * Radix(4);
    assert Radix(7) == 256 * Radix(6) == 256 * (256 * Radix(5));
  }
}
