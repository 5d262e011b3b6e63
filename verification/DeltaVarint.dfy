/** The delta-varint codec of Paimon blob indexes: signed 64-bit values are
stored as differences, each difference zig-zag mapped to an unsigned value and
written as base-128 groups, least significant first, with a continuation bit.

Bit operations on `u64` are written arithmetically (`& 0x7f` as `% 128`, `>> 7`
as `/ 128`, `| 0x80` on a 7-bit value as `+ 128`, and `|` of disjoint bits as
`+`); the `Bits*` lemmas prove these readings of the bitwise operators.
*/
module DeltaVarint {
  import opened Bytes
  import W = Bits

  datatype Error = Overflow | UnexpectedEnd | SumOverflow

  datatype Result<+T> = Ok(value: T) | Err(error: Error)

  // ---------------------------------------------------------------- zig-zag

  function ZigZag(v: I64): (u: U64)
    ensures UnZigZag(u) == v
  {
    if v >= 0 then 2 * v else -2 * v - 1
  }

  function UnZigZag(u: U64): (v: I64) {
    if u % 2 == 0 then u / 2 else -(u / 2) - 1
  }

  lemma WordPowers()
    ensures W.Pow2(7) == 128 && W.Pow2(8) == 256 && W.Pow2(63) == TWO_63 && W.Pow2(64) == TWO_64
  {
    BytePowers();
    hide W.Pow2;
    PowSum(8, 8);
    PowSum(16, 16);
    PowSum(32, 32);
    PowSum(1, 63);
  }

  lemma BytePowers()
    ensures W.Pow2(1) == 2 && W.Pow2(7) == 128 && W.Pow2(8) == 256
  {
  }

  lemma {:induction false} PowSum(j: nat, k: nat)
    ensures W.Pow2(j + k) == W.Pow2(j) * W.Pow2(k)
  {
    if j > 0 {
      PowSum(j - 1, k);
      MulAssoc(2, W.Pow2(j - 1), W.Pow2(k));
    }
  }

  /** `(v << 1) ^ (v >> 63)`, the second shift an arithmetic one, read as unsigned. */
  lemma BitsZigZag(v: I64)
    ensures ZigZag(v) == W.Xor(2 * Unsigned(v, TWO_64) % TWO_64, Unsigned(v / TWO_63, TWO_64))
  {
    hide W.Xor, W.Pow2;
    WordPowers();
    if v < 0 {
      assert v / TWO_63 == -1;
      assert 2 * Unsigned(v, TWO_64) % TWO_64 == TWO_64 + 2 * v;
      W.XorOnes(TWO_64 + 2 * v, 64);
    } else {
      assert v / TWO_63 == 0 && 2 * v % TWO_64 == 2 * v;
      W.XorNothing(2 * v);
    }
  }

  /** `((u >> 1) as i64) ^ (-((u & 1) as i64))`. */
  lemma BitsUnZigZag(u: U64)
    ensures Unsigned(UnZigZag(u), TWO_64) == W.Xor(u / 2, Unsigned(0 - W.And(u, 1) as int, TWO_64))
  {
    hide W.Xor, W.And;
    assert W.Pow2(1) == 2;
    W.AndOnes(u, 1);
    hide W.Pow2;
    WordPowers();
    if u % 2 == 1 {
      W.XorOnes(u / 2, 64);
    } else {
      W.XorNothing(u / 2);
    }
  }

  /** The encoder's loop: its test, the byte it pushes. */
  lemma BitsGroup(r: U64)
    ensures W.And(r, 0x7f) == r % 128 && W.Or(W.And(r, 0x7f), 0x80) == r % 128 + 128
    ensures W.And(r, TWO_64 - 128) != 0 <==> r >= 128
  {
    hide W.And, W.Or, W.Pow2;
    WordPowers();
    W.AndOnes(r, 7);
    W.OrAbove(r % 128, 1, 7);
    W.AndHigh(r, 7, 64);
  }

  /** The decoder's tests on a byte. */
  lemma BitsByte(b: Byte)
    ensures W.And(b, 0x7f) == b % 128 && (W.And(b, 0x80) == 0 <==> b < 128)
  {
    hide W.And, W.Pow2;
    WordPowers();
    W.AndOnes(b, 7);
    W.AndHigh(b, 7, 8);
  }

  // ------------------------------------------------------------- one varint

  function Pow128(k: nat): (r: nat)
    ensures r > 0
  {
    if k == 0 then 1 else 128 * Pow128(k - 1)
  }

  /** The base-128 groups of `u`, least significant first. */
  function Groups(u: nat): (s: seq<Byte>)
    ensures |s| >= 1
    decreases u
  {
    if u < 128 then [u] else [u % 128 + 128] + Groups(u / 128)
  }

  /** What a run of groups denotes, continuation bits ignored. */
  function GroupsValue(s: seq<Byte>): (v: nat) {
    if s == [] then 0 else s[0] % 128 + 128 * GroupsValue(s[1..])
  }

  method EncodeVarint(value: I64, out: seq<Byte>) returns (res: seq<Byte>)
    ensures res == out + Groups(ZigZag(value))
  {
    var remaining: U64 := ZigZag(value);
    res := out;
    while remaining >= 128
      invariant 0 <= remaining < TWO_64
      invariant out + Groups(ZigZag(value)) == res + Groups(remaining)
    {
      assert Groups(remaining) == [remaining % 128 + 128] + Groups(remaining / 128);
      res := res + [remaining % 128 + 128];
      remaining := remaining / 128;
    }
    res := res + [remaining];
  }

  /** Position of the first byte without a continuation bit, or |s| when there is none. */
  function Terminator(s: seq<Byte>): (k: nat)
    ensures k <= |s|
    ensures forall i :: 0 <= i < k ==> s[i] >= 128
    ensures k < |s| ==> s[k] < 128
  {
    if s == [] then 0 else if s[0] < 128 then 0 else 1 + Terminator(s[1..])
  }

  /** What decoding means: at most ten groups, the value taken modulo 2^64. */
  function DecodeSpec(bytes: seq<Byte>): (r: Result<(I64, nat)>)
    ensures r.Ok? ==> 1 <= r.value.1 <= |bytes|
  {
    var k := Terminator(bytes);
    if k < |bytes| && k <= 9 then
      Ok((UnZigZag(GroupsValue(bytes[..k + 1]) % TWO_64), k + 1))
    else if |bytes| >= 10 then Err(Overflow)
    else Err(UnexpectedEnd)
  }

  /** Decoding fails only for want of a last byte: too many continuation bytes if there are
      ten, too few bytes otherwise. */
  lemma DecodeFails(bytes: seq<Byte>)
    ensures DecodeSpec(bytes) == Err(Overflow) <==> |bytes| >= 10 && forall i :: 0 <= i < 10 ==> bytes[i] >= 128
    ensures DecodeSpec(bytes) == Err(UnexpectedEnd) <==> |bytes| < 10 && forall i :: 0 <= i < |bytes| ==> bytes[i] >= 128
  {
    hide GroupsValue;
    var k := Terminator(bytes);
    assert k <= 9 && k < |bytes| ==> bytes[k] < 128;
  }

  lemma {:induction false} TerminatorIs(s: seq<Byte>, k: nat)
    requires k <= |s|
    requires forall i :: 0 <= i < k ==> s[i] >= 128
    requires k < |s| ==> s[k] < 128
    ensures Terminator(s) == k
  {
    if s != [] && s[0] >= 128 {
      TerminatorIs(s[1..], k - 1);
    }
  }

  lemma {:induction false} GroupsValueAppend(s: seq<Byte>, b: Byte)
    ensures GroupsValue(s + [b]) == GroupsValue(s) + Pow128(|s|) * (b % 128)
  {
    if s == [] {
      assert s + [b] == [b];
    } else {
      GroupsValueAppend(s[1..], b);
      assert (s + [b])[1..] == s[1..] + [b];
      calc {
        GroupsValue(s + [b]);
        s[0] % 128 + 128 * (GroupsValue(s[1..]) + Pow128(|s| - 1) * (b % 128));
        { MulAssoc(128, Pow128(|s| - 1), b % 128); }
        GroupsValue(s) + Pow128(|s|) * (b % 128);
      }
    }
  }

  lemma GroupsValueNil()
    ensures GroupsValue([]) == 0 && Pow128(0) == 1
    ensures forall k: nat :: Pow128(k + 1) == 128 * Pow128(k)
  {
  }

  lemma MulAssoc(a: int, b: int, c: int)
    ensures a * (b * c) == (a * b) * c
  {
  }

  lemma {:induction false} GroupsValueBound(s: seq<Byte>)
    ensures GroupsValue(s) < Pow128(|s|)
  {
    if s != [] { GroupsValueBound(s[1..]); }
  }

  lemma Pow128Values()
    ensures Pow128(9) == TWO_63
    ensures forall k :: 0 <= k <= 9 ==> Pow128(k) <= TWO_63
  {
    assert Pow128(3) == 128 * Pow128(2);
    assert Pow128(5) == 128 * Pow128(4);
    assert Pow128(7) == 128 * Pow128(6);
    assert Pow128(9) == 128 * Pow128(8);
  }

  /** Only the tenth group can lose bits: there `g << 63` keeps the lowest bit of `g`. */
  lemma ShiftedGroup(value: nat, g: nat, k: nat)
    requires k <= 9 && g < 128 && value < Pow128(k)
    ensures value + g * Pow128(k) % TWO_64 == (value + Pow128(k) * g) % TWO_64
    ensures k < 9 ==> value + Pow128(k) * g < TWO_64
  {
    hide Pow128;
    Pow128Values();
    if k < 9 {
      GroupFits(g, k);
      SmallGroup(value, g, Pow128(k));
    } else {
      TenthGroup(value, g);
    }
  }

  lemma GroupFits(g: nat, k: nat)
    requires k <= 8 && g < 128
    ensures g * Pow128(k) + Pow128(k) <= TWO_63
  {
    Pow128Values();
    Pow128Step(k + 1, 9);
    var p := Pow128(k);
    assert 128 * p == Pow128(k + 1);
    assert g * p + p == (g + 1) * p <= 128 * p;
  }

  lemma TenthGroup(value: nat, g: nat)
    requires value < TWO_63
    ensures value + g * TWO_63 % TWO_64 == (value + TWO_63 * g) % TWO_64
  {
    var h, l := g / 2, g % 2;
    assert g == 2 * h + l;
    assert g * TWO_63 == TWO_64 * h + l * TWO_63;
    ModShift(l * TWO_63, h);
    ModShift(value + l * TWO_63, h);
  }

  lemma SmallGroup(value: nat, g: nat, p: nat)
    requires value < p && g * p + p <= TWO_63
    ensures value + g * p % TWO_64 == (value + p * g) % TWO_64 && value + p * g < TWO_64
  {
    var x := g * p;
    assert p * g == x;
    assert x % TWO_64 == x;
  }

  lemma ModShift(r: nat, q: nat)
    requires r < TWO_64
    ensures (TWO_64 * q + r) % TWO_64 == r
  {
  }

  lemma {:induction false} Pow128Step(j: nat, k: nat)
    requires j <= k
    ensures Pow128(j) <= Pow128(k)
  {
    if j < k { Pow128Step(j, k - 1); }
  }

  /** `value | (b & 0x7f) << shift`, with `unit` the power of two being shifted by. */
  function AddGroup(value: int, b: Byte, unit: nat): (r: int) { value + (b % 128) * unit % TWO_64 }

  /** Or-ing a shifted group into a value that ends below it, as `<<` leaves it in 64 bits. */
  lemma BitsAddGroup(value: nat, b: Byte, k: nat)
    requires k <= 9 && value < Pow128(k)
    ensures AddGroup(value, b, Pow128(k)) == W.Or(value, (b % 128) * Pow128(k) % TWO_64)
  {
    hide W.Or, W.Pow2, Pow128;
    PowersAgree(k);
    Pow128Values();
    WordPowers();
    var g, p := b % 128, Pow128(k);
    if k < 9 {
      GroupFits(g, k);
      W.OrAbove(value, g, 7 * k);
      SmallRemainder(g * p);
    } else {
      TenthBit(g);
      W.OrAbove(value, g % 2, 63);
    }
  }

  lemma SmallRemainder(x: nat)
    requires x < TWO_64
    ensures x % TWO_64 == x
  {
  }

  lemma TenthBit(g: nat)
    ensures g * TWO_63 % TWO_64 == g % 2 * TWO_63
  {
    var h := g / 2;
    assert g * TWO_63 == TWO_64 * h + g % 2 * TWO_63;
    ModShift(g % 2 * TWO_63, h);
  }

  lemma {:induction false} PowersAgree(k: nat)
    ensures Pow128(k) == W.Pow2(7 * k)
  {
    if k > 0 {
      PowersAgree(k - 1);
      WordPowers();
      PowSum(7, 7 * (k - 1));
    }
  }

  lemma AddsOneGroup(bytes: seq<Byte>, idx: nat)
    requires idx < |bytes| && idx <= 9
    ensures AddGroup(GroupsValue(bytes[..idx]), bytes[idx], Pow128(idx)) == GroupsValue(bytes[..idx + 1]) % TWO_64
    ensures idx < 9 ==> GroupsValue(bytes[..idx + 1]) < TWO_64
  {
    hide GroupsValue, Pow128;
    GroupsValueBound(bytes[..idx]);
    assert bytes[..idx + 1] == bytes[..idx] + [bytes[idx]];
    GroupsValueAppend(bytes[..idx], bytes[idx]);
    ShiftedGroup(GroupsValue(bytes[..idx]), bytes[idx] % 128, idx);
  }

  method DecodeVarint(bytes: seq<Byte>) returns (r: Result<(I64, nat)>)
    ensures r == DecodeSpec(bytes)
  {
    hide GroupsValue, Pow128, AddGroup;
    GroupsValueNil();
    var value: U64 := 0;
    var unit: nat := 1;            // 2^shift
    var shift := 0;
    var idx := 0;
    while idx < |bytes|
      invariant 0 <= idx <= |bytes| && idx <= 9
      invariant shift == 7 * idx && unit == Pow128(idx)
      invariant forall i :: 0 <= i < idx ==> bytes[i] >= 128
      invariant value == GroupsValue(bytes[..idx])
    {
      AddsOneGroup(bytes, idx);
      value := AddGroup(value, bytes[idx], unit);
      if bytes[idx] < 128 {
        TerminatorIs(bytes, idx);
        return Ok((UnZigZag(value), idx + 1));
      }
      shift := shift + 7;
      if shift > 63 {
        assert Terminator(bytes) > idx;
        return Err(Overflow);
      }
      unit := unit * 128;
      idx := idx + 1;
    }
    TerminatorIs(bytes, idx);
    r := Err(UnexpectedEnd);
  }

  /** A varint takes `k` bytes or fewer exactly when its value has at most `7k` bits. */
  lemma {:induction false} GroupsLength(u: nat, k: nat)
    requires k >= 1
    ensures |Groups(u)| <= k <==> u < Pow128(k)
  {
    if k == 1 {
      assert Pow128(1) == 128;
    } else if u >= 128 {
      GroupsLength(u / 128, k - 1);
      assert Pow128(k) == 128 * Pow128(k - 1);
    } else {
      Pow128Step(1, k);
    }
  }

  lemma {:induction false} GroupsShape(u: nat)
    ensures GroupsValue(Groups(u)) == u
    ensures forall i :: 0 <= i < |Groups(u)| - 1 ==> Groups(u)[i] >= 128
    ensures Groups(u)[|Groups(u)| - 1] < 128
    ensures |Groups(u)| > 1 ==> Groups(u)[|Groups(u)| - 1] != 0
    decreases u
  {
    if u < 128 {
      assert Groups(u)[1..] == [];
    } else {
      GroupsShape(u / 128);
      var rest := Groups(u / 128);
      assert Groups(u) == [u % 128 + 128] + rest;
      hide Groups, GroupsValue;
      ValueCons(u % 128 + 128, rest);
    }
  }

  lemma ValueCons(b: Byte, rest: seq<Byte>)
    ensures GroupsValue([b] + rest) == b % 128 + 128 * GroupsValue(rest)
  {
    assert ([b] + rest)[1..] == rest;
  }

  /** Decoding reads one varint back and leaves what follows alone, for every i64. */
  lemma {:induction false} VarintRoundTrip(v: I64, rest: seq<Byte>)
    ensures 1 <= |Groups(ZigZag(v))| <= 10
    ensures DecodeSpec(Groups(ZigZag(v)) + rest) == Ok((v, |Groups(ZigZag(v))|))
  {
    var u := ZigZag(v);
    var g := Groups(u);
    Pow128Values();
    assert Pow128(10) == 128 * Pow128(9);
    GroupsLength(u, 10);
    GroupsShape(u);
    TerminatorIs(g + rest, |g| - 1);
    assert (g + rest)[..|g|] == g;
  }

  lemma {:induction false} MinimalGroups(s: seq<Byte>)
    requires s != [] && s[|s| - 1] < 128
    requires forall i :: 0 <= i < |s| - 1 ==> s[i] >= 128
    requires |s| == 1 || s[|s| - 1] != 0
    ensures Groups(GroupsValue(s)) == s
    ensures |s| == 1 || GroupsValue(s) >= 128
  {
    if |s| == 1 {
      assert s[1..] == [];
    } else {
      MinimalGroups(s[1..]);
      hide Groups;
      var v := GroupsValue(s[1..]);
      assert v > 0 by { if |s| == 2 { OneGroup(s[1..]); } }
      GroupsStep(s[0] % 128, v);
      assert s == [s[0]] + s[1..];
    }
  }

  lemma OneGroup(s: seq<Byte>)
    requires |s| == 1
    ensures GroupsValue(s) == s[0] % 128
  {
    assert s[1..] == [];
  }

  lemma GroupsStep(g: nat, v: nat)
    requires g < 128 && v > 0
    ensures g + 128 * v >= 128 && Groups(g + 128 * v) == [(128 + g) as Byte] + Groups(v)
  {
  }

  /** A padded zero is accepted and is not what the encoder writes. */
  lemma PaddedZero()
    ensures DecodeSpec([0x80, 0x00]) == Ok((0, 2)) && Groups(ZigZag(0)) == [0]
  {
    var bytes: seq<Byte> := [0x80, 0x00];
    assert bytes[1..] == [0] && bytes[..2] == bytes;
    assert Terminator(bytes) == 1 + Terminator([0]);
    assert bytes[1..][1..] == [];
    assert GroupsValue(bytes) == 0;
  }

  /** The decoder also accepts padded and over-long forms: what it accepts is what
      the encoder writes exactly when the last group is needed and fits 64 bits. */
  lemma {:induction false} DecodedIsCanonical(bytes: seq<Byte>)
    requires DecodeSpec(bytes).Ok?
    ensures var (v, n) := DecodeSpec(bytes).value;
            Groups(ZigZag(v)) == bytes[..n] <==> (n == 1 || bytes[n - 1] != 0) && (n == 10 ==> bytes[9] == 1)
  {
    var s := bytes[..DecodeSpec(bytes).value.1];
    ZigZagOnto(GroupsValue(s) % TWO_64);
    CanonicalGroups(s, GroupsValue(s) % TWO_64);
  }

  lemma CanonicalGroups(s: seq<Byte>, u: U64)
    requires 1 <= |s| <= 10 && s[|s| - 1] < 128 && u == GroupsValue(s) % TWO_64
    requires forall i :: 0 <= i < |s| - 1 ==> s[i] >= 128
    ensures Groups(u) == s <==> (|s| == 1 || s[|s| - 1] != 0) && (|s| == 10 ==> s[9] == 1)
  {
    hide GroupsValue;
    ValueFits(s);
    if Groups(u) == s {
      GroupsShape(u);
    }
    if (|s| == 1 || s[|s| - 1] != 0) && (|s| == 10 ==> s[9] == 1) {
      MinimalGroups(s);
    }
  }

  /** Ten groups fit 64 bits exactly when the last one is a single bit. */
  lemma ValueFits(s: seq<Byte>)
    requires 1 <= |s| <= 10 && s[|s| - 1] < 128
    ensures GroupsValue(s) < TWO_64 <==> (|s| == 10 ==> s[9] <= 1)
  {
    var n := |s|;
    Pow128Values();
    if n <= 9 {
      GroupsValueBound(s);
    } else {
      assert s == s[..9] + [s[9]];
      GroupsValueAppend(s[..9], s[9]);
      GroupsValueBound(s[..9]);
    }
  }

  lemma ZigZagOnto(u: U64)
    ensures ZigZag(UnZigZag(u)) == u
  {
  }

  // ----------------------------------------------------------- delta stream

  /** The encoder's loop from `prev` on; the subtraction wraps as a release build does. */
  function EncodeFrom(prev: I64, values: seq<I64>): (s: seq<Byte>)
    decreases |values|
  {
    if values == [] then [] else
      Groups(ZigZag(WrapI64(values[0] - prev))) + EncodeFrom(values[0], values[1..])
  }

  function EncodeSpec(values: seq<I64>): (s: seq<Byte>) { EncodeFrom(0, values) }

  /** The decoder's loop from `prev` on, with its checked addition. */
  function DecodeFrom(prev: I64, bytes: seq<Byte>): (r: Result<seq<I64>>)
    decreases |bytes|
  {
    if bytes == [] then Ok([]) else
      match DecodeSpec(bytes)
      case Err(e) => Err(e)
      case Ok((delta, n)) =>
        if !FitsI64(prev + delta) then Err(SumOverflow)
        else Prepend([prev + delta], DecodeFrom(prev + delta, bytes[n..]))
  }

  function Prepend(values: seq<I64>, r: Result<seq<I64>>): (p: Result<seq<I64>>) {
    match r
    case Err(e) => Err(e)
    case Ok(rest) => Ok(values + rest)
  }

  lemma DecodeFromEnds(prev: I64, bytes: seq<Byte>)
    ensures bytes == [] ==> DecodeFrom(prev, bytes) == Ok([])
    ensures bytes != [] && DecodeSpec(bytes).Err? ==> DecodeFrom(prev, bytes) == Err(DecodeSpec(bytes).error)
  {
  }

  lemma DecodeFromStep(prev: I64, bytes: seq<Byte>, delta: I64, n: nat)
    requires 1 <= n <= |bytes| && DecodeSpec(bytes) == Ok((delta, n))
    ensures DecodeFrom(prev, bytes)
         == if FitsI64(prev + delta) then Prepend([prev + delta], DecodeFrom(prev + delta, bytes[n..])) else Err(SumOverflow)
  {
  }

  function DecodeDeltasSpec(bytes: seq<Byte>): (r: Result<seq<I64>>) { DecodeFrom(0, bytes) }

  method EncodeDeltaVarints(values: seq<I64>) returns (encoded: seq<Byte>)
    ensures encoded == EncodeSpec(values)
  {
    hide EncodeFrom, Groups, ZigZag;
    EncodeFromNil(0);
    if values == [] {
      return [];
    }
    encoded := [];
    var previous: I64 := 0;
    assert values[0..] == values;
    for idx := 0 to |values|
      invariant EncodeSpec(values) == encoded + EncodeFrom(previous, values[idx..])
      invariant idx == 0 ==> previous == 0
    {
      var value := values[idx];
      var delta := if idx == 0 then value else WrapI64(value - previous);
      EncodeFromStep(previous, values, idx);
      ghost var before, rest := encoded, EncodeFrom(value, values[idx + 1..]);
      previous := value;
      encoded := EncodeVarint(delta, encoded);
      assert before + (Groups(ZigZag(delta)) + rest) == encoded + rest;
    }
    assert values[|values|..] == [];
    EncodeFromNil(previous);
    assert encoded + [] == encoded;
  }

  lemma EncodeFromNil(prev: I64)
    ensures EncodeFrom(prev, []) == []
  {
  }

  lemma EncodeFromStep(prev: I64, values: seq<I64>, idx: nat)
    requires idx < |values|
    ensures EncodeFrom(prev, values[idx..])
         == Groups(ZigZag(WrapI64(values[idx] - prev))) + EncodeFrom(values[idx], values[idx + 1..])
  {
    assert values[idx..][1..] == values[idx + 1..];
  }

  method DecodeDeltaVarints(bytes: seq<Byte>) returns (r: Result<seq<I64>>)
    ensures r == DecodeDeltasSpec(bytes)
  {
    hide DecodeFrom, DecodeSpec;
    var values: seq<I64> := [];
    var cursor := 0;
    var previous: I64 := 0;
    assert bytes[0..] == bytes;
    PrependNil(DecodeDeltasSpec(bytes));
    while cursor < |bytes|
      invariant 0 <= cursor <= |bytes|
      invariant values == [] ==> previous == 0
      invariant DecodeDeltasSpec(bytes) == Prepend(values, DecodeFrom(previous, bytes[cursor..]))
    {
      DecodeFromEnds(previous, bytes[cursor..]);
      var one := DecodeVarint(bytes[cursor..]);
      if one.Err? { return Err(one.error); }
      var (delta, consumed) := one.value;
      DecodeFromStep(previous, bytes[cursor..], delta, consumed);
      assert bytes[cursor..][consumed..] == bytes[cursor + consumed..];
      cursor := cursor + consumed;
      if values != [] && !FitsI64(previous + delta) { return Err(SumOverflow); }
      var value := if values == [] then delta else previous + delta;
      PrependStep(values, value, DecodeFrom(value, bytes[cursor..]));
      values := values + [value];
      previous := value;
    }
    DecodeFromEnds(previous, bytes[cursor..]);
    assert values + [] == values;
    r := Ok(values);
  }

  lemma PrependNil(r: Result<seq<I64>>)
    ensures Prepend([], r) == r
  {
    if r.Ok? { assert [] + r.value == r.value; }
  }

  lemma PrependStep(values: seq<I64>, value: I64, r: Result<seq<I64>>)
    ensures Prepend(values, Prepend([value], r)) == Prepend(values + [value], r)
  {
    if r.Ok? { assert values + ([value] + r.value) == values + [value] + r.value; }
  }

  /** No difference of neighbours leaves i64. */
  predicate NeighboursFit(values: seq<int>) {
    forall i :: 0 < i < |values| ==> FitsI64(values[i] - values[i - 1])
  }

  /** Decoding what was encoded after `prev`: the values, or a refusal. */
  lemma {:induction false} DeltaRoundTripFrom(prev: I64, values: seq<I64>)
    ensures DecodeFrom(prev, EncodeFrom(prev, values))
         == if NeighboursFit([prev] + values) then Ok(values) else Err(SumOverflow)
    decreases |values|
  {
    hide DecodeSpec, DecodeFrom, EncodeFrom, Groups, ZigZag;
    if values == [] {
      EncodeFromNil(prev);
      DecodeFromEnds(prev, []);
    } else {
      EncodeFromStep(prev, values, 0);
      assert values[0..] == values;
      var v, rest := values[0], values[1..];
      var delta := WrapI64(v - prev);
      var g := Groups(ZigZag(delta));
      var tail := EncodeFrom(v, rest);
      VarintRoundTrip(delta, tail);
      assert (g + tail)[|g|..] == tail;
      DecodeFromStep(prev, g + tail, delta, |g|);
      DeltaRoundTripFrom(v, rest);
      NeighboursFitCons(prev, values);
      assert values == [v] + rest;
    }
  }

  /** Every value takes at most ten bytes. */
  lemma {:induction false} EncodedLength(prev: I64, values: seq<I64>)
    ensures |EncodeFrom(prev, values)| <= 10 * |values|
    decreases |values|
  {
    if values != [] {
      VarintRoundTrip(WrapI64(values[0] - prev), []);
      EncodedLength(values[0], values[1..]);
    }
  }

  lemma NeighboursFitCons(prev: int, values: seq<int>)
    requires values != []
    ensures NeighboursFit([prev] + values) <==> FitsI64(values[0] - prev) && NeighboursFit(values)
  {
    var all := [prev] + values;
    if NeighboursFit(all) {
      assert FitsI64(all[1] - all[0]);
      forall i | 0 < i < |values| ensures FitsI64(values[i] - values[i - 1]) {
        assert FitsI64(all[i + 1] - all[i]);
      }
    }
  }

  /** The index survives exactly when no neighbouring difference overflows; otherwise
      the reader refuses it, and never yields different values. */
  lemma DeltaRoundTrip(values: seq<I64>)
    ensures DecodeDeltasSpec(EncodeSpec(values)) == if NeighboursFit(values) then Ok(values) else Err(SumOverflow)
  {
    DeltaRoundTripFrom(0, values);
    if values != [] { NeighboursFitCons(0, values); }
  }
}
