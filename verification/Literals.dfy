/** Predicate literals on their way from a Go value through the flat C datum to a
typed Rust datum, coerced to the column's integer type and checked against it.

Floating-point values are opaque. UTF-8 validity is a parameter. Strings of Go and
bytes are byte sequences; a column name is a string of characters.
*/
module Literals {
  import opened Bytes
  import opened Options

  type I8 = x: int | -0x80 <= x < 0x80
  type I16 = x: int | -0x8000 <= x < 0x8000

  const TWO_127: int := TWO_63 * TWO_64

  datatype GoValue =
    | GoBool(b: bool)
    | GoInt8(i8: I8) | GoInt16(i16: I16) | GoInt32(i32: I32) | GoInt(i: I64) | GoInt64(i64: I64)
    | GoFloat32(f: nat) | GoFloat64(d: nat)
    | GoString(text: seq<Byte>) | GoBytes(data: seq<Byte>)
    | GoDate(days: I32) | GoTime(millisOfDay: I32)
    | GoTimestamp(ts: I64, nanos: I32) | GoLocalZonedTimestamp(lzts: I64, lzNanos: I32)
    | GoDecimal(decimal: Decimal)
    | GoDatum(passed: CDatum)
    | GoOther

  datatype Decimal = Decimal(lo: I64, hi: I64, precision: U32, scale: U32)

  /** The C struct; `str` is null or points at exactly the bytes given. */
  datatype CDatum = CDatum(tag: I32, int_: I64, double: nat, str: Option<seq<Byte>>, strLen: nat, int2: I64, uint: U32, uint2: U32)

  datatype Datum =
    | Bool(b: bool) | TinyInt(i8: I8) | SmallInt(i16: I16) | Int(i32: I32) | Long(i64: I64)
    | Float(f: nat) | Double(d: nat) | String(text: seq<Byte>) | Date(days: I32) | Time(millisOfDay: I32)
    | Timestamp(ts: I64, nanos: I32) | LocalZonedTimestamp(lzts: I64, lzNanos: I32)
    | DecimalDatum(unscaled: int, precision: U32, scale: U32)
    | BytesDatum(data: seq<Byte>)

  datatype Error = Unsupported | NullData | BadUtf8 | UnknownTag | OutOfRange | NoSuchColumn | AmbiguousColumn | TypeMismatch

  datatype Result<+T> = Ok(value: T) | Err(error: Error)

  // ---------------------------------------------------------------- Go side

  const NO_STR: Option<seq<Byte>> := None

  function IntC(tag: I32, v: I64): (d: CDatum) { CDatum(tag, v, 0, NO_STR, 0, 0, 0, 0) }

  function BytesC(tag: I32, s: seq<Byte>): (d: CDatum) {
    CDatum(tag, 0, 0, if |s| > 0 then Some(s) else None, |s|, 0, 0, 0)
  }

  function NewDecimal(unscaled: I64, precision: U32, scale: U32): (d: Decimal)
    ensures Recompose(d.lo, d.hi) == unscaled
  {
    Decimal(unscaled, if unscaled < 0 then -1 else 0, precision, scale)
  }

  function ToDatum(v: GoValue): (r: Result<CDatum>) {
    match v
    case GoBool(b) => Ok(IntC(0, if b then 1 else 0))
    case GoInt8(i) => Ok(IntC(1, i))
    case GoInt16(i) => Ok(IntC(2, i))
    case GoInt32(i) => Ok(IntC(3, i))
    case GoInt(i) => if -TWO_31 <= i < TWO_31 then Ok(IntC(3, i)) else Ok(IntC(4, i))
    case GoInt64(i) => Ok(IntC(4, i))
    case GoFloat32(f) => Ok(CDatum(5, 0, f, NO_STR, 0, 0, 0, 0))
    case GoFloat64(d) => Ok(CDatum(6, 0, d, NO_STR, 0, 0, 0, 0))
    case GoString(s) => Ok(BytesC(7, s))
    case GoDate(i) => Ok(IntC(8, i))
    case GoTime(i) => Ok(IntC(9, i))
    case GoTimestamp(m, n) => Ok(CDatum(10, m, 0, NO_STR, 0, n, 0, 0))
    case GoLocalZonedTimestamp(m, n) => Ok(CDatum(11, m, 0, NO_STR, 0, n, 0, 0))
    case GoDecimal(d) => Ok(CDatum(12, d.lo, 0, NO_STR, 0, d.hi, d.precision, d.scale))
    case GoBytes(s) => Ok(BytesC(13, s))
    case GoDatum(c) => Ok(c)
    case GoOther => Err(Unsupported)
  }

  // -------------------------------------------------------------- Rust side

  /** A truncating `as` cast to a signed type with `modulus` values. */
  function Cast(v: int, modulus: int): (r: int)
    requires modulus > 0 && modulus % 2 == 0
    ensures -modulus / 2 <= r < modulus / 2
    ensures -modulus / 2 <= v < modulus / 2 ==> r == v
  {
    if -modulus / 2 <= v < modulus / 2 then v else Signed(v % modulus, modulus)
  }

  /** `((hi as i128) << 64) | (lo as u64 as i128)`. */
  function Recompose(lo: I64, hi: I64): (x: int)
    ensures -TWO_127 <= x < TWO_127
  {
    hi * TWO_64 + Unsigned(lo, TWO_64)
  }

  function FromC(validUtf8: seq<Byte> -> bool, d: CDatum): (r: Result<Datum>) {
    match d.tag
    case 0 => Ok(Bool(d.int_ != 0))
    case 1 => Ok(TinyInt(Cast(d.int_, TWO_8)))
    case 2 => Ok(SmallInt(Cast(d.int_, TWO_16)))
    case 3 => Ok(Int(Cast(d.int_, TWO_32)))
    case 4 => Ok(Long(d.int_))
    case 5 => Ok(Float(d.double))
    case 6 => Ok(Double(d.double))
    case 7 =>
      if d.strLen == 0 then Ok(String([]))
      else if d.str.None? then Err(NullData)
      else if !validUtf8(d.str.value) then Err(BadUtf8)
      else Ok(String(d.str.value))
    case 8 => Ok(Date(Cast(d.int_, TWO_32)))
    case 9 => Ok(Time(Cast(d.int_, TWO_32)))
    case 10 => Ok(Timestamp(d.int_, Cast(d.int2, TWO_32)))
    case 11 => Ok(LocalZonedTimestamp(d.int_, Cast(d.int2, TWO_32)))
    case 12 => Ok(DecimalDatum(Recompose(d.int_, d.int2), d.uint, d.uint2))
    case 13 =>
      if d.str.None? && d.strLen > 0 then Err(NullData)
      else if d.strLen > 0 then Ok(BytesDatum(d.str.value))
      else Ok(BytesDatum([]))
    case _ => Err(UnknownTag)
  }

  /** What a Go value means natively. */
  function Meaning(v: GoValue): (d: Option<Datum>) {
    match v
    case GoBool(b) => Some(Bool(b))
    case GoInt8(i) => Some(TinyInt(i))
    case GoInt16(i) => Some(SmallInt(i))
    case GoInt32(i) => Some(Int(i))
    case GoInt(i) => Some(if -TWO_31 <= i < TWO_31 then Int(i) else Long(i))
    case GoInt64(i) => Some(Long(i))
    case GoFloat32(f) => Some(Float(f))
    case GoFloat64(d) => Some(Double(d))
    case GoString(s) => Some(String(s))
    case GoBytes(s) => Some(BytesDatum(s))
    case GoDate(i) => Some(Date(i))
    case GoTime(i) => Some(Time(i))
    case GoTimestamp(m, n) => Some(Timestamp(m, n))
    case GoLocalZonedTimestamp(m, n) => Some(LocalZonedTimestamp(m, n))
    case GoDecimal(d) => Some(DecimalDatum(Recompose(d.lo, d.hi), d.precision, d.scale))
    case GoDatum(_) => None
    case GoOther => None
  }

  /** Crossing the boundary loses nothing: every supported value arrives as itself,
      except a string that is not UTF-8, which is refused. */
  lemma MarshallingIsExact(validUtf8: seq<Byte> -> bool, v: GoValue)
    requires Meaning(v).Some?
    ensures ToDatum(v).Ok?
    ensures FromC(validUtf8, ToDatum(v).value)
         == if v.GoString? && v.text != [] && !validUtf8(v.text) then Err(BadUtf8) else Ok(Meaning(v).value)
  {
    if v.GoString? && |v.text| == 0 { assert v.text == []; }
    if v.GoBytes? && |v.data| == 0 { assert v.data == []; }
  }

  /** The tag numbers both sides agree on: a native datum's place in this list. */
  function TagOf(d: Datum): (t: nat) {
    match d
    case Bool(_) => 0
    case TinyInt(_) => 1
    case SmallInt(_) => 2
    case Int(_) => 3
    case Long(_) => 4
    case Float(_) => 5
    case Double(_) => 6
    case String(_) => 7
    case Date(_) => 8
    case Time(_) => 9
    case Timestamp(_, _) => 10
    case LocalZonedTimestamp(_, _) => 11
    case DecimalDatum(_, _, _) => 12
    case BytesDatum(_) => 13
  }

  /** Both directions use them: a Go value is sent under the tag of what it means, and
      whatever is read under a tag has that tag. */
  lemma TagsAgree(validUtf8: seq<Byte> -> bool, v: GoValue, c: CDatum)
    ensures Meaning(v).Some? ==> ToDatum(v).Ok? && ToDatum(v).value.tag == TagOf(Meaning(v).value)
    ensures FromC(validUtf8, c).Ok? ==> c.tag == TagOf(FromC(validUtf8, c).value)
    ensures FromC(validUtf8, c) == Err(UnknownTag) <==> !(0 <= c.tag <= 13)
  {
  }

  /** The two halves of an i128: every one has exactly one pair, and the pair that
      floors and truncates is it. */
  lemma DecimalHalves(x: int, lo: I64, hi: I64)
    requires -TWO_127 <= x < TWO_127
    ensures Recompose(lo, hi) == x <==> hi == x / TWO_64 && lo == Signed(x % TWO_64, TWO_64)
  {
    var u := Unsigned(lo, TWO_64);
    assert x == (x / TWO_64) * TWO_64 + x % TWO_64;
    if hi * TWO_64 + u == x {
      UniqueQuotient(hi, u, x / TWO_64, x % TWO_64);
    }
  }

  lemma UniqueQuotient(a: int, r: int, b: int, s: int)
    requires 0 <= r < TWO_64 && 0 <= s < TWO_64 && a * TWO_64 + r == b * TWO_64 + s
    ensures a == b && r == s
  {
  }

  // --------------------------------------------------------------- columns

  datatype DataType = TinyIntType | SmallIntType | IntType | BigIntType | OtherType(code: nat)

  datatype Field = Field(name: string, dataType: DataType)

  function LowerAscii(c: char): (l: char) { if 'A' <= c <= 'Z' then (c as int + 32) as char else c }

  predicate SameIgnoringCase(a: string, b: string) {
    |a| == |b| && forall i :: 0 <= i < |a| ==> LowerAscii(a[i]) == LowerAscii(b[i])
  }

  predicate NameMatches(f: Field, column: string, caseSensitive: bool) {
    if caseSensitive then f.name == column else SameIgnoringCase(f.name, column)
  }

  /** First match at or after `i`, or the number of fields. */
  function FindFrom(fields: seq<Field>, column: string, caseSensitive: bool, i: nat): (k: nat)
    requires i <= |fields|
    ensures i <= k <= |fields| && (k < |fields| ==> NameMatches(fields[k], column, caseSensitive))
    ensures forall j :: i <= j < k ==> !NameMatches(fields[j], column, caseSensitive)
    decreases |fields| - i
  {
    if i == |fields| || NameMatches(fields[i], column, caseSensitive) then i else FindFrom(fields, column, caseSensitive, i + 1)
  }

  /** The builder's resolution: a single match, or an error saying why not. Exact
      matching takes the first, since schemas have no duplicate names. */
  function Resolve(fields: seq<Field>, column: string, caseSensitive: bool): (r: Result<nat>)
    ensures r.Ok? ==> r.value < |fields| && NameMatches(fields[r.value], column, caseSensitive)
  {
    var k := FindFrom(fields, column, caseSensitive, 0);
    if k == |fields| then Err(NoSuchColumn)
    else if !caseSensitive && FindFrom(fields, column, caseSensitive, k + 1) < |fields| then Err(AmbiguousColumn)
    else Ok(k)
  }

  /** No match, several matches that differ only in case, or the first match: and with
      case ignored that is then the only one. */
  lemma Resolution(fields: seq<Field>, column: string, caseSensitive: bool)
    ensures var r := Resolve(fields, column, caseSensitive);
            && (r == Err(NoSuchColumn) <==> forall i :: 0 <= i < |fields| ==> !NameMatches(fields[i], column, caseSensitive))
            && (r == Err(AmbiguousColumn) <==> !caseSensitive && exists i, j ::
                  0 <= i < j < |fields| && NameMatches(fields[i], column, false) && NameMatches(fields[j], column, false))
            && (r.Ok? ==> forall i :: 0 <= i < |fields| && NameMatches(fields[i], column, caseSensitive) ==>
                  r.value == i || (caseSensitive && r.value < i))
  {
    hide NameMatches;
  }

  function IntegerOf(d: Datum): (v: Option<int>) {
    match d
    case TinyInt(i) => Some(i)
    case SmallInt(i) => Some(i)
    case Int(i) => Some(i)
    case Long(i) => Some(i)
    case _ => None
  }

  predicate InRange(t: DataType, v: int) {
    match t
    case TinyIntType => -0x80 <= v < 0x80
    case SmallIntType => -0x8000 <= v < 0x8000
    case IntType => -TWO_31 <= v < TWO_31
    case BigIntType => FitsI64(v)
    case OtherType(_) => false
  }

  /** The datum of an integer type with this value. */
  function Typed(t: DataType, v: int): (d: Datum)
    requires InRange(t, v)
  {
    match t
    case TinyIntType => TinyInt(v)
    case SmallIntType => SmallInt(v)
    case IntType => Int(v)
    case BigIntType => Long(v)
  }

  predicate HasType(d: Datum, t: DataType) {
    match t
    case TinyIntType => d.TinyInt?
    case SmallIntType => d.SmallInt?
    case IntType => d.Int?
    case BigIntType => d.Long?
    case OtherType(_) => false
  }

  /** Coercion as the C layer does it: only integers, only on a resolved integer column,
      and only when the variant is not the column's already. */
  function Coerce(d: Datum, fields: seq<Field>, column: string, caseSensitive: bool): (r: Result<Datum>) {
    var v := IntegerOf(d);
    if v.None? then Ok(d) else
      var field := Resolve(fields, column, caseSensitive);
      if field.Err? then Ok(d) else
        var t := fields[field.value].dataType;
        if t.OtherType? || HasType(d, t) then Ok(d)
        else if InRange(t, v.value) then Ok(Typed(t, v.value))
        else Err(OutOfRange)
  }

  datatype Leaf = Leaf(index: nat, literals: seq<Datum>)

  /** Types that are not integers are checked elsewhere; `compatible` says how. */
  predicate Compatible(d: Datum, t: DataType, compatible: (Datum, nat) -> bool) {
    if t.OtherType? then compatible(d, t.code) else HasType(d, t)
  }

  /** A one-literal comparison: marshalled, coerced, resolved, type-checked. */
  function Build(validUtf8: seq<Byte> -> bool, compatible: (Datum, nat) -> bool,
                 fields: seq<Field>, column: string, caseSensitive: bool, c: CDatum): (r: Result<Leaf>)
  {
    match FromC(validUtf8, c)
    case Err(e) => Err(e)
    case Ok(d) =>
      match Coerce(d, fields, column, caseSensitive)
      case Err(e) => Err(e)
      case Ok(d') =>
        match Resolve(fields, column, caseSensitive)
        case Err(e) => Err(e)
        case Ok(k) => if Compatible(d', fields[k].dataType, compatible) then Ok(Leaf(k, [d'])) else Err(TypeMismatch)
  }

  predicate IsGoInteger(v: GoValue) { v.GoInt8? || v.GoInt16? || v.GoInt32? || v.GoInt? || v.GoInt64? }

  function GoIntegerValue(v: GoValue): (i: int)
    requires IsGoInteger(v)
    ensures FitsI64(i)
  {
    match v
    case GoInt8(i) => i
    case GoInt16(i) => i
    case GoInt32(i) => i
    case GoInt(i) => i
    case GoInt64(i) => i
  }

  /** An integer literal on a resolved integer column becomes a predicate exactly when
      the value is in the column's range, whatever Go type it had; the literal then has
      the column's own type and the same value. Out of range it is refused as such. */
  lemma IntegerLiteralMeaning(validUtf8: seq<Byte> -> bool, compatible: (Datum, nat) -> bool,
                              fields: seq<Field>, column: string, caseSensitive: bool, v: GoValue)
    requires IsGoInteger(v) && Resolve(fields, column, caseSensitive).Ok?
    requires !fields[Resolve(fields, column, caseSensitive).value].dataType.OtherType?
    ensures ToDatum(v).Ok?
    ensures var k := Resolve(fields, column, caseSensitive).value; var t := fields[k].dataType;
            Build(validUtf8, compatible, fields, column, caseSensitive, ToDatum(v).value) ==
              if InRange(t, GoIntegerValue(v)) then Ok(Leaf(k, [Typed(t, GoIntegerValue(v))])) else Err(OutOfRange)
  {
    hide Resolve;
    var c := ToDatum(v).value;
    var d := FromC(validUtf8, c).value;
    assert IntegerOf(d) == Some(GoIntegerValue(v));
  }

  /** Any other literal keeps its own type: on an integer column it is refused, and on a
      column of another type it becomes a predicate exactly if it is compatible with it. */
  lemma OtherLiteralMeaning(validUtf8: seq<Byte> -> bool, compatible: (Datum, nat) -> bool,
                            fields: seq<Field>, column: string, caseSensitive: bool, v: GoValue)
    requires Meaning(v).Some? && Resolve(fields, column, caseSensitive).Ok?
    requires IsGoInteger(v) ==> fields[Resolve(fields, column, caseSensitive).value].dataType.OtherType?
    ensures ToDatum(v).Ok?
    ensures var k := Resolve(fields, column, caseSensitive).value; var t := fields[k].dataType;
            Build(validUtf8, compatible, fields, column, caseSensitive, ToDatum(v).value) ==
              if v.GoString? && v.text != [] && !validUtf8(v.text) then Err(BadUtf8)
              else if t.OtherType? && compatible(Meaning(v).value, t.code) then Ok(Leaf(k, [Meaning(v).value]))
              else Err(TypeMismatch)
  {
    MarshallingIsExact(validUtf8, v);
    IntegersStayIntegers(v);
    hide Resolve, FromC, ToDatum, Meaning;
  }

  lemma IntegersStayIntegers(v: GoValue)
    requires Meaning(v).Some?
    ensures IntegerOf(Meaning(v).value) == if IsGoInteger(v) then Some(GoIntegerValue(v)) else None
  {
  }

  /** A column that is absent or ambiguous is refused with that reason, not coerced. */
  lemma UnresolvedColumn(validUtf8: seq<Byte> -> bool, compatible: (Datum, nat) -> bool,
                         fields: seq<Field>, column: string, caseSensitive: bool, c: CDatum)
    requires Resolve(fields, column, caseSensitive).Err? && FromC(validUtf8, c).Ok?
    ensures Build(validUtf8, compatible, fields, column, caseSensitive, c) == Err(Resolve(fields, column, caseSensitive).error)
  {
    hide FromC, Resolve;
  }

  lemma CoerceIsIdempotent(d: Datum, fields: seq<Field>, column: string, caseSensitive: bool)
    requires Coerce(d, fields, column, caseSensitive).Ok?
    ensures var once := Coerce(d, fields, column, caseSensitive).value;
            Coerce(once, fields, column, caseSensitive) == Ok(once) && IntegerOf(once) == IntegerOf(d)
  {
    hide Resolve;
  }

  // ------------------------------------------------------------------ lists

  function FromCAll(validUtf8: seq<Byte> -> bool, cs: seq<CDatum>): (r: Result<seq<Datum>>) {
    if cs == [] then Ok([]) else
      match FromC(validUtf8, cs[0])
      case Err(e) => Err(e)
      case Ok(d) =>
        match FromCAll(validUtf8, cs[1..])
        case Err(e) => Err(e)
        case Ok(ds) => Ok([d] + ds)
  }

  function CoerceAll(ds: seq<Datum>, fields: seq<Field>, column: string, caseSensitive: bool): (r: Result<seq<Datum>>) {
    if ds == [] then Ok([]) else
      match Coerce(ds[0], fields, column, caseSensitive)
      case Err(e) => Err(e)
      case Ok(d) =>
        match CoerceAll(ds[1..], fields, column, caseSensitive)
        case Err(e) => Err(e)
        case Ok(rest) => Ok([d] + rest)
  }

  /** IN and NOT IN: every literal marshalled, then every one coerced, then checked. */
  function BuildList(validUtf8: seq<Byte> -> bool, compatible: (Datum, nat) -> bool,
                     fields: seq<Field>, column: string, caseSensitive: bool, cs: seq<CDatum>): (r: Result<Leaf>)
  {
    match FromCAll(validUtf8, cs)
    case Err(e) => Err(e)
    case Ok(ds) =>
      match CoerceAll(ds, fields, column, caseSensitive)
      case Err(e) => Err(e)
      case Ok(ds') =>
        match Resolve(fields, column, caseSensitive)
        case Err(e) => Err(e)
        case Ok(k) =>
          if forall i :: 0 <= i < |ds'| ==> Compatible(ds'[i], fields[k].dataType, compatible) then Ok(Leaf(k, ds')) else Err(TypeMismatch)
  }

  /** The Go side of a list: converts in order and stops at the first value of a type
      it does not know. */
  method ToDatums(values: seq<GoValue>) returns (r: Result<seq<CDatum>>)
    ensures r.Ok? <==> forall i :: 0 <= i < |values| ==> ToDatum(values[i]).Ok?
    ensures r.Ok? ==> |r.value| == |values| && forall i :: 0 <= i < |values| ==> Ok(r.value[i]) == ToDatum(values[i])
  {
    hide ToDatum;
    var datums: seq<CDatum> := [];
    for i := 0 to |values|
      invariant |datums| == i && forall k :: 0 <= k < i ==> Ok(datums[k]) == ToDatum(values[k])
    {
      var d := ToDatum(values[i]);
      if d.Err? { return Err(d.error); }
      datums := datums + [d.value];
    }
    r := Ok(datums);
  }

  lemma {:induction false} IntegerListMarshals(validUtf8: seq<Byte> -> bool, fields: seq<Field>, column: string, caseSensitive: bool,
                                               values: seq<GoValue>, cs: seq<CDatum>)
    requires |cs| == |values| && forall i :: 0 <= i < |values| ==> IsGoInteger(values[i]) && ToDatum(values[i]) == Ok(cs[i])
    requires Resolve(fields, column, caseSensitive).Ok?
    requires !fields[Resolve(fields, column, caseSensitive).value].dataType.OtherType?
    ensures FromCAll(validUtf8, cs).Ok?
    ensures var t := fields[Resolve(fields, column, caseSensitive).value].dataType;
            var r := CoerceAll(FromCAll(validUtf8, cs).value, fields, column, caseSensitive);
            && (r.Ok? <==> forall i :: 0 <= i < |values| ==> InRange(t, GoIntegerValue(values[i])))
            && (r.Err? ==> r.error == OutOfRange)
            && (r.Ok? ==> |r.value| == |values| && forall i :: 0 <= i < |values| ==> r.value[i] == Typed(t, GoIntegerValue(values[i])))
  {
    hide Resolve, FromC, Coerce, ToDatum, Typed, InRange;
    if values != [] {
      var rest := values[1..];
      assert forall i :: 0 <= i < |rest| ==> rest[i] == values[i + 1] && cs[1..][i] == cs[i + 1];
      IntegerListMarshals(validUtf8, fields, column, caseSensitive, rest, cs[1..]);
      OneCoerces(validUtf8, fields, column, caseSensitive, values[0]);
      var d := FromC(validUtf8, cs[0]).value;
      var ds := FromCAll(validUtf8, cs[1..]).value;
      assert ([d] + ds)[1..] == ds;
    }
  }

  lemma OneCoerces(validUtf8: seq<Byte> -> bool, fields: seq<Field>, column: string, caseSensitive: bool, v: GoValue)
    requires IsGoInteger(v) && Resolve(fields, column, caseSensitive).Ok?
    requires !fields[Resolve(fields, column, caseSensitive).value].dataType.OtherType?
    ensures ToDatum(v).Ok? && FromC(validUtf8, ToDatum(v).value).Ok?
    ensures var t := fields[Resolve(fields, column, caseSensitive).value].dataType;
            Coerce(FromC(validUtf8, ToDatum(v).value).value, fields, column, caseSensitive) ==
              if InRange(t, GoIntegerValue(v)) then Ok(Typed(t, GoIntegerValue(v))) else Err(OutOfRange)
  {
    hide Resolve;
    assert IntegerOf(FromC(validUtf8, ToDatum(v).value).value) == Some(GoIntegerValue(v));
  }

  /** A list of integer literals becomes a predicate exactly when every element is in
      the column's range. */
  lemma IntegerListMeaning(validUtf8: seq<Byte> -> bool, compatible: (Datum, nat) -> bool,
                           fields: seq<Field>, column: string, caseSensitive: bool, values: seq<GoValue>, cs: seq<CDatum>)
    requires |cs| == |values| && forall i :: 0 <= i < |values| ==> IsGoInteger(values[i]) && ToDatum(values[i]) == Ok(cs[i])
    requires Resolve(fields, column, caseSensitive).Ok?
    requires !fields[Resolve(fields, column, caseSensitive).value].dataType.OtherType?
    ensures var k := Resolve(fields, column, caseSensitive).value; var t := fields[k].dataType;
            var r := BuildList(validUtf8, compatible, fields, column, caseSensitive, cs);
            && (r.Ok? <==> forall i :: 0 <= i < |values| ==> InRange(t, GoIntegerValue(values[i])))
            && (r.Err? ==> r.error == OutOfRange)
            && (r.Ok? ==> r.value.index == k && |r.value.literals| == |values|)
            && (r.Ok? ==> forall i :: 0 <= i < |values| ==> r.value.literals[i] == Typed(t, GoIntegerValue(values[i])))
  {
    hide Resolve, FromCAll, CoerceAll, ToDatum;
    IntegerListMarshals(validUtf8, fields, column, caseSensitive, values, cs);
  }

  /** A list on a column of another type becomes a predicate exactly when every element is
      compatible with it, and holds the elements as they were given. */
  lemma OtherListMeaning(validUtf8: seq<Byte> -> bool, compatible: (Datum, nat) -> bool,
                         fields: seq<Field>, column: string, caseSensitive: bool, values: seq<GoValue>, cs: seq<CDatum>)
    requires forall i :: 0 <= i < |values| ==> Meaning(values[i]).Some? && Passes(validUtf8, values[i])
    requires |cs| == |values| && forall i :: 0 <= i < |values| ==> ToDatum(values[i]) == Ok(cs[i])
    requires Resolve(fields, column, caseSensitive).Ok?
    requires fields[Resolve(fields, column, caseSensitive).value].dataType.OtherType?
    ensures var k := Resolve(fields, column, caseSensitive).value; var code := fields[k].dataType.code;
            var r := BuildList(validUtf8, compatible, fields, column, caseSensitive, cs);
            && (r.Ok? <==> forall i :: 0 <= i < |values| ==> compatible(Meaning(values[i]).value, code))
            && (r.Err? ==> r.error == TypeMismatch)
            && (r.Ok? ==> r.value.index == k && |r.value.literals| == |values|)
            && (r.Ok? ==> forall i :: 0 <= i < |values| ==> r.value.literals[i] == Meaning(values[i]).value)
  {
    hide Resolve, FromCAll, CoerceAll, ToDatum, Meaning;
    OtherListMarshals(validUtf8, fields, column, caseSensitive, values, cs);
  }

  /** A value that crosses the boundary. */
  predicate Passes(validUtf8: seq<Byte> -> bool, v: GoValue) {
    Meaning(v).Some? && !(v.GoString? && v.text != [] && !validUtf8(v.text))
  }

  lemma {:induction false} OtherListMarshals(validUtf8: seq<Byte> -> bool, fields: seq<Field>, column: string, caseSensitive: bool,
                                             values: seq<GoValue>, cs: seq<CDatum>)
    requires forall i :: 0 <= i < |values| ==> Meaning(values[i]).Some? && Passes(validUtf8, values[i])
    requires |cs| == |values| && forall i :: 0 <= i < |values| ==> ToDatum(values[i]) == Ok(cs[i])
    requires Resolve(fields, column, caseSensitive).Ok?
    requires fields[Resolve(fields, column, caseSensitive).value].dataType.OtherType?
    ensures FromCAll(validUtf8, cs).Ok? && |FromCAll(validUtf8, cs).value| == |values|
    ensures forall i :: 0 <= i < |values| ==> FromCAll(validUtf8, cs).value[i] == Meaning(values[i]).value
    ensures CoerceAll(FromCAll(validUtf8, cs).value, fields, column, caseSensitive) == FromCAll(validUtf8, cs)
  {
    hide Resolve, FromC, ToDatum, Meaning, IntegerOf;
    if values != [] {
      var rest := values[1..];
      assert forall i :: 0 <= i < |rest| ==> rest[i] == values[i + 1] && cs[1..][i] == cs[i + 1];
      OtherListMarshals(validUtf8, fields, column, caseSensitive, rest, cs[1..]);
      MarshallingIsExact(validUtf8, values[0]);
      var d := FromC(validUtf8, cs[0]).value;
      var ds := FromCAll(validUtf8, cs[1..]).value;
      assert ([d] + ds)[1..] == ds;
    }
  }
}
