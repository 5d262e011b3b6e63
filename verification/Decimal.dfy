/** Decimal numerals as the Rust and C++ standard libraries print them, and their value. */
module Decimal {
  function DigitChar(d: nat): (c: char)
    requires d < 10
    ensures IsDigit(c) && DigitValue(c) == d
  {
    '0' + d as char
  }

  predicate IsDigit(c: char) { '0' <= c <= '9' }

  function DigitValue(c: char): (d: nat)
    requires IsDigit(c)
    ensures d < 10
  {
    c as int - '0' as int
  }

  predicate AllDigits(s: string) { forall i :: 0 <= i < |s| ==> IsDigit(s[i]) }

  /** The numeral without leading zeros. */
  function Print(n: nat): (s: string)
    ensures s != [] && AllDigits(s)
  {
    if n < 10 then [DigitChar(n)] else Print(n / 10) + [DigitChar(n % 10)]
  }

  /** The number a run of digits denotes, leading zeros allowed. */
  function Value(s: string): (n: nat)
    requires AllDigits(s)
  {
    if s == [] then 0 else Value(s[..|s| - 1]) * 10 + DigitValue(s[|s| - 1])
  }

  lemma {:induction false} PrintRoundTrip(n: nat)
    ensures Value(Print(n)) == n
  {
    if n >= 10 {
      PrintRoundTrip(n / 10);
      assert Print(n)[..|Print(n)| - 1] == Print(n / 10);
    }
  }

  function Zeros(k: nat): (s: string)
    ensures |s| == k && AllDigits(s) && forall i :: 0 <= i < k ==> s[i] == '0'
  {
    seq(k, i => '0')
  }

  /** Only zero is printed with a leading zero. */
  lemma {:induction false} NoLeadingZero(n: nat)
    ensures Print(n)[0] == '0' <==> n == 0
  {
    if n >= 10 { NoLeadingZero(n / 10); }
  }

  lemma {:induction false} AllZeros(s: string)
    requires AllDigits(s)
    ensures Value(s) == 0 ==> s == Zeros(|s|)
  {
    if s != [] {
      var n := |s| - 1;
      AllZeros(s[..n]);
      assert s == s[..n] + [s[n]];
    }
  }

  /** Digits are the printed number with zeros before it. */
  lemma {:induction false} DigitsArePrinted(s: string)
    requires AllDigits(s) && s != []
    ensures |Print(Value(s))| <= |s| && s == Zeros(|s| - |Print(Value(s))|) + Print(Value(s))
  {
    hide Print, Value, Zeros;
    var n := |s| - 1;
    var init, d := s[..n], DigitValue(s[n]);
    var v := Value(init);
    ValueLast(s);
    PrintLast(v, d);
    assert s == init + [s[n]] && DigitChar(d) == s[n];
    if v == 0 {
      AllZeros(init);
      assert s == Zeros(n) + [s[n]];
    } else {
      DigitsArePrinted(init);
      assert s == Zeros(n - |Print(v)|) + (Print(v) + [s[n]]);
    }
  }

  lemma ValueLast(s: string)
    requires AllDigits(s) && s != []
    ensures var n := |s| - 1; AllDigits(s[..n]) && Value(s) == Value(s[..n]) * 10 + DigitValue(s[n]) && (Value(s[..n]) != 0 ==> s[..n] != [])
  {
  }

  lemma PrintLast(v: nat, d: nat)
    requires d < 10
    ensures Print(v * 10 + d) == (if v == 0 then [] else Print(v)) + [DigitChar(d)]
  {
    assert (v * 10 + d) / 10 == v && (v * 10 + d) % 10 == d;
  }

  lemma {:induction false} ZerosAddNothing(k: nat, s: string)
    requires AllDigits(s)
    ensures AllDigits(Zeros(k) + s) && Value(Zeros(k) + s) == Value(s)
    decreases |s| + k
  {
    if s != [] {
      ZerosAddNothing(k, s[..|s| - 1]);
      assert (Zeros(k) + s)[..k + |s| - 1] == Zeros(k) + s[..|s| - 1];
    } else if k > 0 {
      ZerosAddNothing(k - 1, s);
      assert (Zeros(k) + s)[..k - 1] == Zeros(k - 1) + s;
    }
  }

  /** How many digits `s` starts with. */
  function DigitCount(s: string): (k: nat)
    ensures k <= |s| && AllDigits(s[..k])
  {
    if s == [] || !IsDigit(s[0]) then 0 else
      var k := DigitCount(s[1..]);
      assert s[..1 + k] == [s[0]] + s[1..][..k];
      1 + k
  }

  lemma {:induction false} DigitsEnd(digits: string, c: char, rest: string)
    requires AllDigits(digits) && !IsDigit(c)
    ensures DigitCount(digits + [c] + rest) == |digits|
  {
    if digits != [] {
      DigitsEnd(digits[1..], c, rest);
      assert (digits + [c] + rest)[1..] == digits[1..] + [c] + rest;
    }
  }
}
