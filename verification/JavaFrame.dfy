/** Java `DataOutput` frames: `writeUTF` strings in modified UTF-8 (section 4.4.7
of the Java Virtual Machine Specification) and the source-metadata frame of a
primary-key index, with the production reader of both.

A string is its sequence of UTF-16 code units.
*/
module JavaFrame {
  import opened Bytes

  datatype Error =
    | Truncated | BadTwoByte | BadThreeByte | BadLeadByte | BadUtf16
    | BadVersion | BadLevel | NoFiles | NegativeRowCount | TrailingBytes

  datatype Result<+T> = Ok(value: T) | Err(error: Error)

  // ------------------------------------------------------- modified UTF-8

  function EncodeUnit(c: U16): (s: seq<Byte>)
    ensures 1 <= |s| <= 3 && 0 !in s
  {
    if 1 <= c <= 0x7F then [c]
    else if c > 0x7FF then [224 + c / 4096, 128 + c / 64 % 64, 128 + c % 64]
    else [192 + c / 64, 128 + c % 64]
  }

  /** Reassembling two- and three-byte forms. */
  function Two(b0: int, b1: int): (u: U16)
    requires 192 <= b0 < 224
  {
    b0 % 32 * 64 + b1 % 64
  }

  function Three(b0: int, b1: int, b2: int): (u: U16)
    requires 224 <= b0 < 240
  {
    b0 % 16 * 4096 + b1 % 64 * 64 + b2 % 64
  }

  lemma TwoInverts(c: U16)
    requires c <= 0x7FF
    ensures 192 <= 192 + c / 64 < 224 && 128 <= 128 + c % 64 < 192 && Two(192 + c / 64, 128 + c % 64) == c
  {
  }

  lemma ThreeInverts(c: U16)
    ensures 224 <= 224 + c / 4096 < 240 && 128 <= 128 + c / 64 % 64 < 192 && 128 <= 128 + c % 64 < 192
    ensures Three(224 + c / 4096, 128 + c / 64 % 64, 128 + c % 64) == c
  {
    var q := c / 64;
    assert c == q * 64 + c % 64;
    assert q == q / 64 * 64 + q % 64 && c / 4096 == q / 64;
  }

  function Body(units: seq<U16>): (s: seq<Byte>) {
    if units == [] then [] else EncodeUnit(units[0]) + Body(units[1..])
  }

  /** The frame of one string; a body longer than u16 leaves a truncated length. */
  function WriteUtf(units: seq<U16>): (s: seq<Byte>)
    ensures |s| == 2 + |Body(units)|
  {
    ToBe(|Body(units)| % TWO_16, 2) + Body(units)
  }

  /** One turn of the encoder's loop. */
  method PushUnit(body: seq<Byte>, c: U16) returns (out: seq<Byte>)
    ensures out == body + EncodeUnit(c)
  {
    out := body;
    if 1 <= c <= 0x7F {
      out := out + [c];
    } else if c > 0x7FF {
      out := out + [224 + c / 4096];
      out := out + [128 + c / 64 % 64];
      out := out + [128 + c % 64];
    } else {
      out := out + [192 + c / 64];
      out := out + [128 + c % 64];
    }
  }

  method JavaWriteUtf(units: seq<U16>) returns (out: seq<Byte>)
    ensures out == WriteUtf(units)
  {
    hide EncodeUnit;
    var body: seq<Byte> := [];
    assert units[0..] == units;
    for i := 0 to |units|
      invariant Body(units) == body + Body(units[i..])
    {
      assert units[i..][1..] == units[i + 1..];
      ghost var before := body;
      body := PushUnit(body, units[i]);
      assert before + (EncodeUnit(units[i]) + Body(units[i + 1..])) == body + Body(units[i + 1..]);
    }
    assert units[|units|..] == [] && body + [] == body;
    out := ToBe(|body| % TWO_16, 2) + body;
  }

  predicate Continuation(b: Byte) { 128 <= b < 192 }

  /** The reader's loop over a body. A raw zero byte is accepted, as Java does. */
  function DecodeUnits(s: seq<Byte>): (r: Result<seq<U16>>)
    decreases |s|
  {
    if s == [] then Ok([])
    else if s[0] < 128 then Cons(s[0], DecodeUnits(s[1..]))
    else if 192 <= s[0] < 224 then
      if |s| < 2 || !Continuation(s[1]) then Err(BadTwoByte)
      else Cons(Two(s[0], s[1]), DecodeUnits(s[2..]))
    else if 224 <= s[0] < 240 then
      if |s| < 3 || !Continuation(s[1]) || !Continuation(s[2]) then Err(BadThreeByte)
      else Cons(Three(s[0], s[1], s[2]), DecodeUnits(s[3..]))
    else Err(BadLeadByte)
  }

  function Cons(unit: U16, r: Result<seq<U16>>): (c: Result<seq<U16>>) {
    match r
    case Err(e) => Err(e)
    case Ok(rest) => Ok([unit] + rest)
  }

  lemma {:induction false} DecodeOne(c: U16, rest: seq<Byte>)
    ensures DecodeUnits(EncodeUnit(c) + rest) == Cons(c, DecodeUnits(rest))
  {
    hide Two, Three, Cons;
    var e := EncodeUnit(c);
    assert (e + rest)[|e|..] == rest;
    if c > 0x7FF {
      ThreeInverts(c);
    } else if c == 0 || c > 0x7F {
      TwoInverts(c);
    }
  }

  lemma DecodeNil()
    ensures DecodeUnits([]) == Ok([])
  {
  }

  lemma {:induction false} BodyRoundTrip(units: seq<U16>)
    ensures DecodeUnits(Body(units)) == Ok(units)
    ensures 0 !in Body(units)
  {
    hide EncodeUnit, DecodeUnits;
    if units == [] {
      DecodeNil();
    } else {
      BodyRoundTrip(units[1..]);
      DecodeOne(units[0], Body(units[1..]));
      assert [units[0]] + units[1..] == units;
    }
  }

  /** Cutting a body short never yields the same string: what decodes at all decodes
      to units whose own body is the part that was kept. */
  lemma {:induction false} CutBody(units: seq<U16>, n: nat)
    requires n <= |Body(units)| && DecodeUnits(Body(units)[..n]).Ok?
    ensures Body(DecodeUnits(Body(units)[..n]).value) == Body(units)[..n]
  {
    if units != [] && n > 0 {
      var c, rest := units[0], units[1..];
      var e := EncodeUnit(c);
      var kept := Body(units)[..n];
      if n >= |e| {
        assert kept == e + Body(rest)[..n - |e|];
        DecodeOne(c, Body(rest)[..n - |e|]);
        CutBody(rest, n - |e|);
        var tail := DecodeUnits(Body(rest)[..n - |e|]).value;
        assert ([c] + tail)[1..] == tail;
      }
    }
  }

  // --------------------------------------------- exactly what is decoded

  /** A unit can be spelled in one byte below 0x80, in two below 0x800, and always in
      three; the reader does not insist on the shortest. */
  predicate Admits(c: U16, k: nat) { (k == 1 && c < 0x80) || (k == 2 && c < 0x800) || k == 3 }

  /** The bytes of a unit in `k` bytes: marker bits and six payload bits a byte. */
  function Form(c: U16, k: nat): (s: seq<Byte>)
    requires Admits(c, k)
    ensures |s| == k
  {
    if k == 1 then [c]
    else if k == 2 then [192 + c / 64, 128 + c % 64]
    else [224 + c / 4096, 128 + c / 64 % 64, 128 + c % 64]
  }

  /** The writer uses the shortest spelling, but spells NUL in two bytes so that no zero
      byte is written. */
  lemma ShortestForm(c: U16)
    ensures Admits(c, |EncodeUnit(c)|) && EncodeUnit(c) == Form(c, |EncodeUnit(c)|)
    ensures forall k: nat :: Admits(c, k) && (c == 0 ==> k > 1) ==> |EncodeUnit(c)| <= k
  {
    assert forall k: nat :: Admits(c, k) ==> k == 1 || k == 2 || k == 3;
  }

  ghost predicate Spells(s: seq<Byte>, units: seq<U16>) {
    if units == [] then s == []
    else exists k: nat :: Admits(units[0], k) && k <= |s| && s[..k] == Form(units[0], k) && Spells(s[k..], units[1..])
  }

  lemma DecodeForm(c: U16, k: nat, rest: seq<Byte>)
    requires Admits(c, k)
    ensures DecodeUnits(Form(c, k) + rest) == Cons(c, DecodeUnits(rest))
  {
    hide Two, Three, Cons;
    var e := Form(c, k);
    assert (e + rest)[k..] == rest;
    if k == 2 {
      TwoInverts(c);
    } else if k == 3 {
      ThreeInverts(c);
    }
  }

  lemma TwoOnto(b0: int, b1: int)
    requires 192 <= b0 < 224 && 128 <= b1 < 192
    ensures Two(b0, b1) < 0x800 && Form(Two(b0, b1), 2) == [b0, b1]
  {
  }

  lemma ThreeOnto(b0: int, b1: int, b2: int)
    requires 224 <= b0 < 240 && 128 <= b1 < 192 && 128 <= b2 < 192
    ensures Form(Three(b0, b1, b2), 3) == [b0, b1, b2]
  {
    var x, y, z := b0 - 224, b1 - 128, b2 - 128;
    assert Three(b0, b1, b2) == (x * 64 + y) * 64 + z by { MarkersGone(b0, b1, b2); }
    hide Three;
    SixBits(x * 64 + y, z);
    SixBits(x, y);
  }

  lemma MarkersGone(b0: int, b1: int, b2: int)
    requires 224 <= b0 < 240 && 128 <= b1 < 192 && 128 <= b2 < 192
    ensures b0 % 16 == b0 - 224 && b1 % 64 == b1 - 128 && b2 % 64 == b2 - 128
  {
  }

  lemma SixBits(q: nat, r: nat)
    requires r < 64
    ensures (q * 64 + r) / 64 == q && (q * 64 + r) % 64 == r && (q * 64 + r) / 4096 == q / 64
  {
  }

  /** A body decodes to a string exactly if it spells that string, unit by unit. */
  lemma {:induction false} DecodeIffSpelled(s: seq<Byte>, units: seq<U16>)
    ensures DecodeUnits(s) == Ok(units) <==> Spells(s, units)
    decreases |units|
  {
    hide DecodeUnits, Form, Admits;
    if units == [] {
      NoUnits(s);
    } else if Spells(s, units) {
      var k: nat :| Admits(units[0], k) && k <= |s| && s[..k] == Form(units[0], k) && Spells(s[k..], units[1..]);
      DecodeIffSpelled(s[k..], units[1..]);
      assert s == Form(units[0], k) + s[k..];
      DecodeForm(units[0], k, s[k..]);
      assert [units[0]] + units[1..] == units;
    } else if DecodeUnits(s) == Ok(units) {
      var k := FirstForm(s, units);
      DecodeIffSpelled(s[k..], units[1..]);
    }
  }

  lemma NoUnits(s: seq<Byte>)
    ensures DecodeUnits(s) == Ok([]) <==> s == []
  {
    hide Two, Three;
  }

  lemma FirstForm(s: seq<Byte>, units: seq<U16>) returns (k: nat)
    requires units != [] && DecodeUnits(s) == Ok(units)
    ensures Admits(units[0], k) && k <= |s| && s[..k] == Form(units[0], k) && DecodeUnits(s[k..]) == Ok(units[1..])
  {
    hide Two, Three, Form;
    if s[0] < 128 {
      k := 1;
      OneOnto(s[0]);
    } else if s[0] < 224 {
      k := 2;
      TwoOnto(s[0], s[1]);
    } else {
      k := 3;
      ThreeOnto(s[0], s[1], s[2]);
    }
    assert units[1..] == DecodeUnits(s[k..]).value;
  }

  lemma OneOnto(b: Byte)
    ensures b < 0x80 ==> Form(b, 1) == [b]
  {
  }

  // --------------------------------------------------------- UTF-16 checks

  predicate High(c: U16) { 0xD800 <= c < 0xDC00 }

  predicate Low(c: U16) { 0xDC00 <= c < 0xE000 }

  /** What `String::from_utf16` accepts: surrogates only in pairs. */
  predicate WellFormed(units: seq<U16>) {
    if units == [] then true
    else if High(units[0]) then |units| > 1 && Low(units[1]) && WellFormed(units[2..])
    else !Low(units[0]) && WellFormed(units[1..])
  }

  predicate PairedAt(units: seq<U16>, i: nat)
    requires i < |units|
  {
    && (High(units[i]) ==> i + 1 < |units| && Low(units[i + 1]))
    && (Low(units[i]) ==> i > 0 && High(units[i - 1]))
  }

  /** Every high surrogate is followed by a low one and every low one preceded by a high. */
  lemma {:induction false} WellFormedIffPaired(units: seq<U16>)
    ensures WellFormed(units) <==> forall i :: 0 <= i < |units| ==> PairedAt(units, i)
    decreases |units|
  {
    if units != [] {
      var n := if High(units[0]) then 2 else 1;
      if PairedAt(units, 0) {
        var rest := units[n..];
        WellFormedIffPaired(rest);
        forall i | 0 <= i < |rest| ensures PairedAt(rest, i) == PairedAt(units, i + n) {
          assert rest[i] == units[i + n];
          if i > 0 { assert rest[i - 1] == units[i + n - 1]; }
        }
        assert forall i :: n <= i < |units| ==> PairedAt(units, i) == PairedAt(rest, i - n);
      }
    }
  }

  // ------------------------------------------------------------ one string

  /** Read one string off the front; yields the units and what is left. */
  function ReadUtf(s: seq<Byte>): (r: Result<(seq<U16>, seq<Byte>)>)
    ensures r.Ok? ==> |r.value.1| < |s|
  {
    if |s| < 2 then Err(Truncated) else
      var len := FromBe(s[..2]);
      if |s| - 2 < len then Err(Truncated) else
        Checked(DecodeUnits(s[2..2 + len]), s[2 + len..])
  }

  function Checked(r: Result<seq<U16>>, rest: seq<Byte>): (c: Result<(seq<U16>, seq<Byte>)>)
    ensures c.Ok? ==> c.value.1 == rest
  {
    match r
    case Err(e) => Err(e)
    case Ok(units) => if WellFormed(units) then Ok((units, rest)) else Err(BadUtf16)
  }

  method ReadJavaUtf(s: seq<Byte>) returns (r: Result<(seq<U16>, seq<Byte>)>)
    ensures r == ReadUtf(s)
  {
    if |s| < 2 { return Err(Truncated); }
    var len := FromBe(s[..2]);
    if |s| - 2 < len { return Err(Truncated); }
    var bytes := s[2..2 + len];
    var units := DecodeBody(bytes);
    if units.Err? { return Err(units.error); }
    if !WellFormed(units.value) { return Err(BadUtf16); }
    r := Ok((units.value, s[2 + len..]));
  }

  function Prefix(units: seq<U16>, r: Result<seq<U16>>): (p: Result<seq<U16>>) {
    match r
    case Err(e) => Err(e)
    case Ok(rest) => Ok(units + rest)
  }

  lemma PrefixCons(units: seq<U16>, c: U16, r: Result<seq<U16>>)
    ensures Prefix(units, Cons(c, r)) == Prefix(units + [c], r) && Prefix([], r) == r
  {
    if r.Ok? {
      assert units + ([c] + r.value) == units + [c] + r.value;
      assert [] + r.value == r.value;
    }
  }

  method DecodeBody(bytes: seq<Byte>) returns (r: Result<seq<U16>>)
    ensures r == DecodeUnits(bytes)
  {
    var len := |bytes|;
    var units: seq<U16> := [];
    var i := 0;
    assert bytes[0..] == bytes;
    PrefixCons([], 0, DecodeUnits(bytes));
    while i < len
      invariant 0 <= i <= len
      invariant DecodeUnits(bytes) == Prefix(units, DecodeUnits(bytes[i..]))
    {
      var b0 := bytes[i];
      var u: U16;
      var step;
      if b0 < 128 {
        u, step := b0, 1;
      } else if 192 <= b0 < 224 {
        if i + 1 >= len || !Continuation(bytes[i + 1]) { return Err(BadTwoByte); }
        u, step := Two(b0, bytes[i + 1]), 2;
      } else if 224 <= b0 < 240 {
        if i + 2 >= len || !Continuation(bytes[i + 1]) || !Continuation(bytes[i + 2]) { return Err(BadThreeByte); }
        u, step := Three(b0, bytes[i + 1], bytes[i + 2]), 3;
      } else {
        return Err(BadLeadByte);
      }
      assert bytes[i..][step..] == bytes[i + step..];
      PrefixCons(units, u, DecodeUnits(bytes[i + step..]));
      units := units + [u];
      i := i + step;
    }
    assert units + [] == units;
    r := Ok(units);
  }

  lemma ReadLayout(len: nat, body: seq<Byte>, rest: seq<Byte>)
    requires len < TWO_16 && len <= |body|
    ensures ReadUtf(ToBe(len, 2) + body + rest) == Checked(DecodeUnits(body[..len]), body[len..] + rest)
  {
    var s := ToBe(len, 2) + body + rest;
    RadixValues();
    BeRoundTrip(len, 2);
    hide ToBe, FromBe, Radix, DecodeUnits, WellFormed;
    assert s[..2] == ToBe(len, 2);
    assert s[2..2 + len] == body[..len];
    assert s[2 + len..] == body[len..] + rest;
  }

  /** A string comes back, and what follows it is untouched, when its body fits the
      u16 length. */
  lemma UtfRoundTrip(units: seq<U16>, rest: seq<Byte>)
    requires WellFormed(units) && |Body(units)| < TWO_16
    ensures ReadUtf(WriteUtf(units) + rest) == Ok((units, rest))
  {
    hide ReadUtf, Body, DecodeUnits, WellFormed;
    var body := Body(units);
    BodyRoundTrip(units);
    ReadLayout(|body|, body, rest);
    assert body[..|body|] == body && body[|body|..] + rest == rest;
  }

  /** A longer string never reads back as itself. */
  lemma UtfTooLong(units: seq<U16>, rest: seq<Byte>)
    requires |Body(units)| >= TWO_16
    ensures ReadUtf(WriteUtf(units) + rest).Err? || ReadUtf(WriteUtf(units) + rest).value.0 != units
  {
    hide ReadUtf, Body, DecodeUnits, WellFormed;
    var body := Body(units);
    var len := |body| % TWO_16;
    ReadLayout(len, body, rest);
    if DecodeUnits(body[..len]).Ok? {
      CutBody(units, len);
    }
  }

  /** Exactly the strings without lone surrogates whose body fits come back. */
  lemma UtfRoundTripIff(units: seq<U16>, rest: seq<Byte>)
    ensures ReadUtf(WriteUtf(units) + rest) == Ok((units, rest)) <==> WellFormed(units) && |Body(units)| < TWO_16
  {
    hide Body, DecodeUnits, WellFormed;
    if |Body(units)| >= TWO_16 {
      UtfTooLong(units, rest);
    } else if WellFormed(units) {
      UtfRoundTrip(units, rest);
    }
  }

  // ------------------------------------------------- source-metadata frame

  datatype SourceFile = SourceFile(name: seq<U16>, rows: I64)

  datatype SourceMeta = SourceMeta(level: I32, files: seq<SourceFile>)

  const SOURCE_META_VERSION: I32 := 1

  function FileBytes(f: SourceFile): (s: seq<Byte>) {
    WriteUtf(f.name) + ToBe(Unsigned(f.rows, TWO_64), 8)
  }

  function FilesBytes(files: seq<SourceFile>): (s: seq<Byte>) {
    if files == [] then [] else FileBytes(files[0]) + FilesBytes(files[1..])
  }

  /** The frame; the file count is cut to 32 bits as the cast does. */
  function Frame(meta: SourceMeta): (s: seq<Byte>) {
    ToBe(SOURCE_META_VERSION, 4) + ToBe(Unsigned(meta.level, TWO_32), 4) + ToBe(|meta.files| % TWO_32, 4)
    + FilesBytes(meta.files)
  }

  method SourceMetaBytes(meta: SourceMeta) returns (out: seq<Byte>)
    ensures out == Frame(meta)
  {
    hide FileBytes, ToBe, WriteUtf;
    var files := meta.files;
    out := ToBe(SOURCE_META_VERSION, 4);
    out := out + ToBe(Unsigned(meta.level, TWO_32), 4);
    out := out + ToBe(|files| % TWO_32, 4);
    ghost var head := out;
    assert files[0..] == files;
    for i := 0 to |files|
      invariant head + FilesBytes(files) == out + FilesBytes(files[i..])
    {
      assert files[i..][1..] == files[i + 1..];
      ghost var before := out;
      var name := JavaWriteUtf(files[i].name);
      out := out + name;
      out := out + ToBe(Unsigned(files[i].rows, TWO_64), 8);
      FileBytesAre(files[i]);
      assert before + (FileBytes(files[i]) + FilesBytes(files[i + 1..])) == out + FilesBytes(files[i + 1..]);
    }
    assert files[|files|..] == [] && out + [] == out;
  }

  lemma FileBytesAre(f: SourceFile)
    ensures FileBytes(f) == WriteUtf(f.name) + ToBe(Unsigned(f.rows, TWO_64), 8)
  {
  }

  function ReadFile(s: seq<Byte>): (r: Result<(SourceFile, seq<Byte>)>)
    ensures r.Ok? ==> |r.value.1| < |s| && r.value.0.rows >= 0
  {
    match ReadUtf(s)
    case Err(e) => Err(e)
    case Ok((name, rest)) =>
      if |rest| < 8 then Err(Truncated) else
        RadixValues();
        var rows := Signed(FromBe(rest[..8]), TWO_64);
        if rows < 0 then Err(NegativeRowCount) else Ok((SourceFile(name, rows), rest[8..]))
  }

  function ReadFiles(s: seq<Byte>, count: nat): (r: Result<(seq<SourceFile>, seq<Byte>)>)
    ensures r.Ok? ==> |r.value.0| == count
    decreases count
  {
    if count == 0 then Ok(([], s)) else
      match ReadFile(s)
      case Err(e) => Err(e)
      case Ok((f, rest)) =>
        match ReadFiles(rest, count - 1)
        case Err(e) => Err(e)
        case Ok((fs, left)) => Ok(([f] + fs, left))
  }

  function DeserializeSpec(s: seq<Byte>): (r: Result<SourceMeta>)
    ensures r.Ok? ==> r.value.level > 0 && 0 < |r.value.files| < TWO_31
  {
    RadixValues();
    if |s| < 4 then Err(Truncated)
    else if Signed(FromBe(s[..4]), TWO_32) != SOURCE_META_VERSION then Err(BadVersion)
    else if |s| < 8 then Err(Truncated)
    else
      var level := Signed(FromBe(s[4..8]), TWO_32);
      if level <= 0 then Err(BadLevel)
      else if |s| < 12 then Err(Truncated)
      else FilesAfter(s[12..], level, Signed(FromBe(s[8..12]), TWO_32))
  }

  function FilesAfter(s: seq<Byte>, level: I32, count: I32): (r: Result<SourceMeta>)
    ensures r.Ok? ==> r.value.level == level && |r.value.files| == count > 0
  {
    if count <= 0 then Err(NoFiles) else
      match ReadFiles(s, count)
      case Err(e) => Err(e)
      case Ok((files, rest)) => if rest == [] then Ok(SourceMeta(level, files)) else Err(TrailingBytes)
  }

  method Deserialize(s: seq<Byte>) returns (r: Result<SourceMeta>)
    ensures r == DeserializeSpec(s)
  {
    hide ReadFile, ReadFiles, FromBe;
    RadixValues();
    if |s| < 4 { return Err(Truncated); }
    if Signed(FromBe(s[..4]), TWO_32) != SOURCE_META_VERSION { return Err(BadVersion); }
    if |s| < 8 { return Err(Truncated); }
    var level := Signed(FromBe(s[4..8]), TWO_32);
    if level <= 0 { return Err(BadLevel); }
    if |s| < 12 { return Err(Truncated); }
    var count := Signed(FromBe(s[8..12]), TWO_32);
    if count <= 0 { return Err(NoFiles); }
    var files := DeserializeFiles(s[12..], count);
    if files.Err? { return Err(files.error); }
    if files.value.1 != [] { return Err(TrailingBytes); }
    r := Ok(SourceMeta(level, files.value.0));
  }

  function PrefixFiles(done: seq<SourceFile>, r: Result<(seq<SourceFile>, seq<Byte>)>): (p: Result<(seq<SourceFile>, seq<Byte>)>) {
    match r
    case Err(e) => Err(e)
    case Ok((fs, left)) => Ok((done + fs, left))
  }

  lemma ReadFilesStep(done: seq<SourceFile>, s: seq<Byte>, count: nat)
    ensures PrefixFiles([], ReadFiles(s, count)) == ReadFiles(s, count)
    ensures PrefixFiles(done, ReadFiles(s, 0)) == Ok((done, s))
    ensures count > 0 && ReadFile(s).Err? ==> PrefixFiles(done, ReadFiles(s, count)) == Err(ReadFile(s).error)
    ensures count > 0 && ReadFile(s).Ok? ==>
              PrefixFiles(done, ReadFiles(s, count)) == PrefixFiles(done + [ReadFile(s).value.0], ReadFiles(ReadFile(s).value.1, count - 1))
  {
    hide ReadFile;
    if ReadFiles(s, count).Ok? {
      assert [] + ReadFiles(s, count).value.0 == ReadFiles(s, count).value.0;
    }
    assert done + [] == done;
    if count > 0 && ReadFile(s).Ok? {
      var (f, rest) := ReadFile(s).value;
      if ReadFiles(rest, count - 1).Ok? {
        var fs := ReadFiles(rest, count - 1).value.0;
        assert done + ([f] + fs) == done + [f] + fs;
      }
    }
  }

  method DeserializeFiles(s: seq<Byte>, count: nat) returns (r: Result<(seq<SourceFile>, seq<Byte>)>)
    ensures r == ReadFiles(s, count)
  {
    hide ReadFiles, FromBe, ReadUtf, PrefixFiles;
    var files: seq<SourceFile> := [];
    var left := s;
    ReadFilesStep(files, left, count);
    for i := 0 to count
      invariant ReadFiles(s, count) == PrefixFiles(files, ReadFiles(left, count - i))
    {
      ReadFilesStep(files, left, count - i);
      var name := ReadJavaUtf(left);
      if name.Err? { return Err(name.error); }
      var rest := name.value.1;
      if |rest| < 8 { return Err(Truncated); }
      RadixValues();
      var rows := Signed(FromBe(rest[..8]), TWO_64);
      if rows < 0 { return Err(NegativeRowCount); }
      files := files + [SourceFile(name.value.0, rows)];
      left := rest[8..];
    }
    ReadFilesStep(files, left, 0);
    r := Ok((files, left));
  }

  predicate Storable(f: SourceFile) { f.rows >= 0 && |Body(f.name)| < TWO_16 }

  lemma FileRoundTrip(f: SourceFile, rest: seq<Byte>)
    requires WellFormed(f.name)
    ensures Storable(f) ==> ReadFile(FileBytes(f) + rest) == Ok((f, rest))
    ensures !Storable(f) ==> ReadFile(FileBytes(f) + rest).Err? || ReadFile(FileBytes(f) + rest).value.0 != f
  {
    hide ReadUtf, WriteUtf, Body, WellFormed, ToBe, FromBe, Radix;
    var count := ToBe(Unsigned(f.rows, TWO_64), 8);
    var s := FileBytes(f) + rest;
    assert s == WriteUtf(f.name) + (count + rest);
    RadixValues();
    BeRoundTrip(Unsigned(f.rows, TWO_64), 8);
    if |Body(f.name)| < TWO_16 {
      UtfRoundTrip(f.name, count + rest);
      assert (count + rest)[..8] == count && (count + rest)[8..] == rest;
    } else {
      UtfTooLong(f.name, count + rest);
    }
  }

  lemma {:induction false} FilesRoundTrip(files: seq<SourceFile>)
    requires forall i :: 0 <= i < |files| ==> WellFormed(files[i].name)
    ensures (forall i :: 0 <= i < |files| ==> Storable(files[i])) ==> ReadFiles(FilesBytes(files), |files|) == Ok((files, []))
    ensures ReadFiles(FilesBytes(files), |files|).Ok? && ReadFiles(FilesBytes(files), |files|).value.0 == files
            ==> forall i :: 0 <= i < |files| ==> Storable(files[i])
  {
    hide ReadFile, FileBytes, Storable, WellFormed;
    if files != [] {
      var f, rest := files[0], files[1..];
      FilesRoundTrip(rest);
      FileRoundTrip(f, FilesBytes(rest));
      assert files == [f] + rest;
      var r := ReadFiles(FilesBytes(files), |files|);
      if r.Ok? && r.value.0 == files {
        var (g, left) := ReadFile(FilesBytes(files)).value;
        assert r.value.0[0] == g;
        assert left == FilesBytes(rest);
        assert r.value.0[1..] == ReadFiles(left, |rest|).value.0;
      }
    }
  }

  /** The whole frame reads back as what was written exactly when the level is
      positive, there is at least one file and fewer than 2^31, no row count is negative
      and every name fits its length prefix. */
  lemma FrameRoundTrip(meta: SourceMeta)
    requires forall i :: 0 <= i < |meta.files| ==> WellFormed(meta.files[i].name)
    ensures DeserializeSpec(Frame(meta)) == Ok(meta)
       <==> meta.level > 0 && 0 < |meta.files| < TWO_31 && forall i :: 0 <= i < |meta.files| ==> Storable(meta.files[i])
  {
    hide FilesBytes, ReadFiles, ToBe, FromBe, Radix, Storable, WellFormed;
    var files, n := meta.files, |meta.files| % TWO_32;
    var s := Frame(meta);
    RadixValues();
    BeRoundTrip(SOURCE_META_VERSION, 4);
    BeRoundTrip(Unsigned(meta.level, TWO_32), 4);
    BeRoundTrip(n, 4);
    assert s[..4] == ToBe(SOURCE_META_VERSION, 4);
    assert s[4..8] == ToBe(Unsigned(meta.level, TWO_32), 4);
    assert s[8..12] == ToBe(n, 4);
    assert s[12..] == FilesBytes(files);
    FilesRoundTrip(files);
  }

  // ------------------------------------------------- exactly what is read

  /** A body for a file's name: short enough, spelling a proper string. */
  ghost predicate Named(f: SourceFile, body: seq<Byte>) {
    |body| < TWO_16 && Spells(body, f.name) && WellFormed(f.name) && f.rows >= 0
  }

  /** The record of one file: length, body and row count, high bytes first. */
  function Record(body: seq<Byte>, rows: nat): (s: seq<Byte>) { ToBe(|body|, 2) + body + ToBe(rows, 8) }

  lemma ReadUtfIs(s: seq<Byte>, units: seq<U16>, rest: seq<Byte>)
    ensures ReadUtf(s) == Ok((units, rest)) <==>
            WellFormed(units) && exists body :: |body| < TWO_16 && Spells(body, units) && s == ToBe(|body|, 2) + body + rest
  {
    hide ToBe, FromBe, Radix, DecodeUnits, Spells, WellFormed;
    RadixValues();
    if ReadUtf(s) == Ok((units, rest)) {
      var len := FromBe(s[..2]);
      var body := s[2..2 + len];
      BeOnto(s[..2]);
      DecodeIffSpelled(body, units);
      assert s == s[..2] + body + rest;
    }
    forall body | WellFormed(units) && |body| < TWO_16 && Spells(body, units) && s == ToBe(|body|, 2) + body + rest
      ensures ReadUtf(s) == Ok((units, rest))
    {
      DecodeIffSpelled(body, units);
      ReadLayout(|body|, body, rest);
      assert body[..|body|] == body && body[|body|..] + rest == rest;
    }
  }

  lemma ReadFileIs(s: seq<Byte>, f: SourceFile, rest: seq<Byte>)
    ensures ReadFile(s) == Ok((f, rest)) <==> exists body :: Named(f, body) && s == Record(body, f.rows) + rest
  {
    hide ToBe, FromBe, Radix, ReadUtf, Spells, WellFormed;
    RadixValues();
    if ReadFile(s) == Ok((f, rest)) {
      var after := ReadUtf(s).value.1;
      ReadUtfIs(s, f.name, after);
      var body :| |body| < TWO_16 && Spells(body, f.name) && s == ToBe(|body|, 2) + body + after;
      BeOnto(after[..8]);
      assert after == after[..8] + rest;
      assert s == Record(body, f.rows) + rest;
    }
    forall body | Named(f, body) && s == Record(body, f.rows) + rest ensures ReadFile(s) == Ok((f, rest)) {
      var after := ToBe(f.rows, 8) + rest;
      assert s == ToBe(|body|, 2) + body + after;
      ReadUtfIs(s, f.name, after);
      BeRoundTrip(f.rows, 8);
      assert after[..8] == ToBe(f.rows, 8) && after[8..] == rest;
    }
  }

  /** One body per file. */
  ghost predicate AllNamed(files: seq<SourceFile>, bodies: seq<seq<Byte>>) {
    |bodies| == |files| && forall i :: 0 <= i < |files| ==> Named(files[i], bodies[i])
  }

  ghost function Records(files: seq<SourceFile>, bodies: seq<seq<Byte>>): (s: seq<Byte>)
    requires AllNamed(files, bodies)
    decreases |files|
  {
    if files == [] then [] else
      TailNamed(files, bodies);
      Record(bodies[0], files[0].rows) + Records(files[1..], bodies[1..])
  }

  lemma TailNamed(files: seq<SourceFile>, bodies: seq<seq<Byte>>)
    requires AllNamed(files, bodies) && files != []
    ensures Named(files[0], bodies[0]) && AllNamed(files[1..], bodies[1..])
  {
  }

  lemma {:induction false} RecordsRead(files: seq<SourceFile>, bodies: seq<seq<Byte>>, rest: seq<Byte>)
    requires AllNamed(files, bodies)
    ensures ReadFiles(Records(files, bodies) + rest, |files|) == Ok((files, rest))
    decreases |files|
  {
    hide ReadFile, Named, Record;
    if files == [] {
      assert [] + rest == rest;
    } else {
      TailNamed(files, bodies);
      var left := Records(files[1..], bodies[1..]) + rest;
      RecordsRead(files[1..], bodies[1..], rest);
      assert Records(files, bodies) + rest == Record(bodies[0], files[0].rows) + left;
      ReadFileIs(Records(files, bodies) + rest, files[0], left);
      assert files == [files[0]] + files[1..];
    }
  }

  lemma {:induction false} ReadIsRecords(s: seq<Byte>, count: nat) returns (bodies: seq<seq<Byte>>)
    requires ReadFiles(s, count).Ok?
    ensures var (files, rest) := ReadFiles(s, count).value;
            AllNamed(files, bodies) && s == Records(files, bodies) + rest
    decreases count
  {
    hide ReadFile, Named, Record;
    var (files, rest) := ReadFiles(s, count).value;
    if count == 0 {
      bodies := [];
    } else {
      var (f, left) := ReadFile(s).value;
      ReadFileIs(s, f, left);
      var body :| Named(f, body) && s == Record(body, f.rows) + left;
      var more := ReadIsRecords(left, count - 1);
      bodies := [body] + more;
      assert files[0] == f && files[1..] == ReadFiles(left, count - 1).value.0 && bodies[1..] == more;
      assert AllNamed(files, bodies);
      assert Record(body, f.rows) + (Records(files[1..], more) + rest) == Records(files, bodies) + rest;
    }
  }

  /** The frame of these files with these spellings of their names. */
  ghost predicate Framed(s: seq<Byte>, meta: SourceMeta, bodies: seq<seq<Byte>>) {
    && meta.level > 0 && 0 < |meta.files| < TWO_31 && AllNamed(meta.files, bodies)
    && s == [0, 0, 0, 1] + ToBe(meta.level, 4) + ToBe(|meta.files|, 4) + Records(meta.files, bodies)
  }

  /** The reader accepts exactly the frames: version 1, a positive level, a positive file
      count, that many records, and nothing after them. */
  lemma ReadIffFramed(s: seq<Byte>, meta: SourceMeta)
    ensures DeserializeSpec(s) == Ok(meta) <==> exists bodies :: Framed(s, meta, bodies)
  {
    hide ReadFiles, Records, AllNamed, ToBe, FromBe, Radix;
    if DeserializeSpec(s) == Ok(meta) {
      HeaderIs(s);
      var bodies := ReadIsRecords(s[12..], |meta.files|);
      assert Records(meta.files, bodies) + [] == Records(meta.files, bodies);
      assert s == s[..4] + s[4..8] + s[8..12] + s[12..];
      assert Framed(s, meta, bodies);
    }
    forall bodies | Framed(s, meta, bodies) ensures DeserializeSpec(s) == Ok(meta) {
      FrameReads(s, meta, bodies);
    }
  }

  lemma VersionBytes()
    ensures ToBe(1, 4) == [0, 0, 0, 1]
  {
    ByteOrder(1, 4, 0);
    ByteOrder(1, 4, 1);
    ByteOrder(1, 4, 2);
    ByteOrder(1, 4, 3);
    assert Radix(1) == 256 && Radix(2) == 65536 && Radix(3) == 16777216;
    hide ToBe;
  }

  /** The three header fields, where they can be read. */
  lemma HeaderIs(s: seq<Byte>)
    requires |s| >= 12
    ensures FromBe(s[..4]) == 1 <==> s[..4] == [0, 0, 0, 1]
    ensures Signed(FromBe(s[..4]), TWO_32) == 1 <==> FromBe(s[..4]) == 1
    ensures var level := Signed(FromBe(s[4..8]), TWO_32); level >= 0 ==> s[4..8] == ToBe(level, 4)
    ensures var count := Signed(FromBe(s[8..12]), TWO_32); count >= 0 ==> s[8..12] == ToBe(count, 4)
  {
    RadixValues();
    VersionBytes();
    BeRoundTrip(1, 4);
    hide ToBe, FromBe, Radix;
    BeOnto(s[..4]);
    BeOnto(s[4..8]);
    BeOnto(s[8..12]);
  }

  lemma FrameReads(s: seq<Byte>, meta: SourceMeta, bodies: seq<seq<Byte>>)
    requires Framed(s, meta, bodies)
    ensures DeserializeSpec(s) == Ok(meta)
  {
    RadixValues();
    hide ReadFiles, Records, AllNamed, ToBe, FromBe, Radix;
    VersionBytes();
    BeRoundTrip(1, 4);
    BeRoundTrip(meta.level, 4);
    BeRoundTrip(|meta.files|, 4);
    assert s[..4] == [0, 0, 0, 1] && s[4..8] == ToBe(meta.level, 4) && s[8..12] == ToBe(|meta.files|, 4);
    assert s[12..] == Records(meta.files, bodies) && s[12..] + [] == s[12..];
    RecordsRead(meta.files, bodies, []);
  }

  lemma FourBytes(b: seq<Byte>)
    requires |b| == 4
    ensures FromBe(b) == 0x100_0000 * b[0] as int + 0x1_0000 * b[1] as int + 0x100 * b[2] as int + b[3] as int
    ensures var v := FromBe(b); v < TWO_32 && (Signed(v, TWO_32) <= 0 <==> b[0] >= 128 || b == [0, 0, 0, 0])
  {
    RadixValues();
    var c, d, e := b[..3], b[..2], b[..1];
    assert c[..2] == d && d[..1] == e && e[..0] == [];
    assert FromBe(e) == b[0] && FromBe(d) == 256 * FromBe(e) + b[1] && FromBe(c) == 256 * FromBe(d) + b[2];
  }

  predicate NotPositive(b: seq<Byte>) { b != [] && (b[0] >= 128 || b == [0, 0, 0, 0]) }

  /** Which complaint a bad header draws, the version being looked at first. */
  lemma BadHeader(s: seq<Byte>)
    requires |s| >= 12
    ensures s[..4] != [0, 0, 0, 1] <==> DeserializeSpec(s) == Err(BadVersion)
    ensures s[..4] == [0, 0, 0, 1] && NotPositive(s[4..8]) <==> DeserializeSpec(s) == Err(BadLevel)
    ensures s[..4] == [0, 0, 0, 1] && !NotPositive(s[4..8]) && NotPositive(s[8..12]) <==> DeserializeSpec(s) == Err(NoFiles)
  {
    HeaderIs(s);
    FourBytes(s[..4]);
    FourBytes(s[4..8]);
    FourBytes(s[8..12]);
    hide FromBe, ReadFiles;
    FileErrors(s[12..], Signed(FromBe(s[8..12]), TWO_32));
  }

  /** Reading files draws only these complaints. */
  lemma {:induction false} FileErrors(s: seq<Byte>, count: int)
    ensures count > 0 && ReadFiles(s, count).Err? ==>
      ReadFiles(s, count).error in {Truncated, BadTwoByte, BadThreeByte, BadLeadByte, BadUtf16, NegativeRowCount}
    decreases count
  {
    if count > 0 {
      if ReadFile(s).Ok? {
        hide ReadFile;
        FileErrors(ReadFile(s).value.1, count - 1);
      } else if |s| >= 2 && |s| - 2 >= FromBe(s[..2]) {
        UnitErrors(s[2..2 + FromBe(s[..2])]);
        hide DecodeUnits;
      }
    }
  }

  lemma {:induction false} UnitErrors(s: seq<Byte>)
    ensures DecodeUnits(s).Err? ==> DecodeUnits(s).error in {BadTwoByte, BadThreeByte, BadLeadByte}
    decreases |s|
  {
    hide Two, Three;
    if s != [] {
      UnitErrors(s[1..]);
      if |s| >= 2 { UnitErrors(s[2..]); }
      if |s| >= 3 { UnitErrors(s[3..]); }
    }
  }

  /** Anything after a frame is refused. */
  lemma FrameExtended(s: seq<Byte>, meta: SourceMeta, bodies: seq<seq<Byte>>, more: seq<Byte>)
    requires Framed(s, meta, bodies) && more != []
    ensures DeserializeSpec(s + more) == Err(TrailingBytes)
  {
    RadixValues();
    hide ReadFiles, Records, AllNamed, ToBe, FromBe, Radix;
    VersionBytes();
    BeRoundTrip(1, 4);
    BeRoundTrip(meta.level, 4);
    BeRoundTrip(|meta.files|, 4);
    var t := s + more;
    assert t[..4] == [0, 0, 0, 1] && t[4..8] == ToBe(meta.level, 4) && t[8..12] == ToBe(|meta.files|, 4);
    assert t[12..] == Records(meta.files, bodies) + more;
    RecordsRead(meta.files, bodies, more);
  }

  /** A frame cut short anywhere is reported as cut short. */
  lemma FrameCut(s: seq<Byte>, meta: SourceMeta, bodies: seq<seq<Byte>>, n: nat)
    requires Framed(s, meta, bodies) && n < |s|
    ensures DeserializeSpec(s[..n]) == Err(Truncated)
  {
    RadixValues();
    hide ReadFiles, Records, AllNamed, ToBe, FromBe, Radix;
    VersionBytes();
    BeRoundTrip(1, 4);
    BeRoundTrip(meta.level, 4);
    BeRoundTrip(|meta.files|, 4);
    var t := s[..n];
    assert s[..4] == [0, 0, 0, 1] && s[4..8] == ToBe(meta.level, 4) && s[8..12] == ToBe(|meta.files|, 4);
    if n >= 4 { assert t[..4] == s[..4]; }
    if n >= 8 { assert t[4..8] == s[4..8]; }
    if n >= 12 {
      assert t[8..12] == s[8..12];
      assert t[12..] == Records(meta.files, bodies)[..n - 12];
      RecordsCut(meta.files, bodies, n - 12);
    }
  }

  lemma {:induction false} RecordsCut(files: seq<SourceFile>, bodies: seq<seq<Byte>>, n: nat)
    requires AllNamed(files, bodies) && n < |Records(files, bodies)|
    ensures ReadFiles(Records(files, bodies)[..n], |files|) == Err(Truncated)
    decreases |files|
  {
    hide ReadFile, Named, Record;
    TailNamed(files, bodies);
    var first := Record(bodies[0], files[0].rows);
    var t := Records(files, bodies)[..n];
    if n < |first| {
      assert t == first[..n];
      RecordCut(files[0], bodies[0], n);
    } else {
      var left := Records(files[1..], bodies[1..])[..n - |first|];
      assert t == first + left;
      ReadFileIs(t, files[0], left);
      RecordsCut(files[1..], bodies[1..], n - |first|);
    }
  }

  lemma RecordCut(f: SourceFile, body: seq<Byte>, n: nat)
    requires Named(f, body) && n < |Record(body, f.rows)|
    ensures ReadFile(Record(body, f.rows)[..n]) == Err(Truncated)
  {
    hide ToBe, FromBe, Spells, WellFormed, ReadUtf;
    var t := Record(body, f.rows)[..n];
    if n >= 2 + |body| {
      var rest := t[2 + |body|..];
      assert t == ToBe(|body|, 2) + body + rest;
      ReadUtfIs(t, f.name, rest);
    } else {
      if n >= 2 { assert t[..2] == ToBe(|body|, 2); }
      ShortUtf(t, |body|);
    }
  }

  lemma ShortUtf(s: seq<Byte>, len: nat)
    requires len < TWO_16 && |s| < 2 + len && (|s| >= 2 ==> s[..2] == ToBe(len, 2))
    ensures ReadUtf(s) == Err(Truncated)
  {
    RadixValues();
    BeRoundTrip(len, 2);
    hide ToBe, FromBe, Radix, DecodeUnits, WellFormed;
  }

  /** A written frame is one of these, with the writer's own spelling of each name. */
  lemma WrittenIsFramed(meta: SourceMeta)
    requires forall i :: 0 <= i < |meta.files| ==> WellFormed(meta.files[i].name) && Storable(meta.files[i])
    ensures meta.level > 0 && 0 < |meta.files| < TWO_31 ==>
              Framed(Frame(meta), meta, seq(|meta.files|, i requires 0 <= i < |meta.files| => Body(meta.files[i].name)))
  {
    hide FilesBytes, Records, AllNamed, ToBe, Storable, WellFormed, Body;
    if meta.level > 0 && 0 < |meta.files| < TWO_31 {
      var bodies := seq(|meta.files|, i requires 0 <= i < |meta.files| => Body(meta.files[i].name));
      VersionBytes();
      BodiesNamed(meta.files, bodies);
    }
  }

  lemma {:induction false} BodiesNamed(files: seq<SourceFile>, bodies: seq<seq<Byte>>)
    requires forall i :: 0 <= i < |files| ==> WellFormed(files[i].name) && Storable(files[i])
    requires |bodies| == |files| && forall i :: 0 <= i < |files| ==> bodies[i] == Body(files[i].name)
    ensures AllNamed(files, bodies) && FilesBytes(files) == Records(files, bodies)
    decreases |files|
  {
    hide ToBe, WellFormed, Body, Spells, DecodeUnits;
    forall i | 0 <= i < |files| ensures Named(files[i], bodies[i]) {
      BodyRoundTrip(files[i].name);
      DecodeIffSpelled(bodies[i], files[i].name);
    }
    if files != [] {
      BodiesNamed(files[1..], bodies[1..]);
    }
  }

  // ---------------------------------------------------------------- rewrite

  /** A length-prefixed string given as its bytes. */
  function Prefixed(text: seq<Byte>): (s: seq<Byte>) { ToBe(|text| % TWO_16, 2) + text }

  predicate OccursAt(s: seq<Byte>, needle: seq<Byte>, at: nat) {
    at + |needle| <= |s| && s[at..at + |needle|] == needle
  }

  predicate FirstAt(s: seq<Byte>, needle: seq<Byte>, at: nat) {
    OccursAt(s, needle, at) && forall k :: 0 <= k < at ==> !OccursAt(s, needle, k)
  }

  /** Replace the first prefixed `from` by a prefixed `to`; None where the source panics. */
  method Rewrite(bytes: seq<Byte>, from: seq<Byte>, to: seq<Byte>) returns (out: seq<Byte>, at: int)
    ensures at < 0 ==> forall k :: 0 <= k ==> !OccursAt(bytes, Prefixed(from), k)
    ensures at >= 0 ==> FirstAt(bytes, Prefixed(from), at)
    ensures at >= 0 ==> out == bytes[..at] + Prefixed(to) + bytes[at + |Prefixed(from)|..]
  {
    hide ToBe;
    var needle := ToBe(|from| % TWO_16, 2);
    needle := needle + from;
    at := 0;
    while at + |needle| <= |bytes|
      invariant 0 <= at
      invariant forall k :: 0 <= k < at ==> !OccursAt(bytes, needle, k)
    {
      if bytes[at..at + |needle|] == needle {
        out := bytes[..at];
        out := out + ToBe(|to| % TWO_16, 2);
        out := out + to;
        out := out + bytes[at + |needle|..];
        return;
      }
      at := at + 1;
    }
    out, at := [], -1;
  }

  // --------------------------------- plain UTF-8, which rewriting works with

  /** A code point of the basic plane: as in the modified form, except that NUL is a zero
      byte. */
  function BasicUtf8(c: U16): (s: seq<Byte>) { if c < 128 then [c] else EncodeUnit(c) }

  /** A surrogate pair: four bytes. */
  function PairUtf8(high: U16, low: U16): (s: seq<Byte>)
    requires High(high) && Low(low)
    ensures |s| == 4 && s[0] >= 240
  {
    var n := 0x10000 + Offset(high, 0xD800) * 1024 + Offset(low, 0xDC00);
    [240 + n / 262144, 128 + n / 4096 % 64, 128 + n / 64 % 64, 128 + n % 64]
  }

  function Offset(c: int, base: int): (d: int) { c - base }

  /** The UTF-8 bytes of a string, as `as_bytes` gives them. */
  function Utf8(units: seq<U16>): (s: seq<Byte>)
    requires WellFormed(units)
  {
    if units == [] then []
    else if High(units[0]) then PairUtf8(units[0], units[1]) + Utf8(units[2..])
    else BasicUtf8(units[0]) + Utf8(units[1..])
  }

  /** No character beyond the basic plane. */
  predicate Basic(units: seq<U16>) { forall i :: 0 <= i < |units| ==> !High(units[i]) }

  /** Nor a NUL: the two forms agree. */
  predicate Plain(units: seq<U16>) { Basic(units) && 0 !in units }

  lemma DecodeBasic(c: U16, rest: seq<Byte>)
    ensures DecodeUnits(BasicUtf8(c) + rest) == Cons(c, DecodeUnits(rest))
  {
    if c < 128 {
      assert ([c] + rest)[1..] == rest;
    } else {
      DecodeOne(c, rest);
    }
  }

  lemma BasicCons(units: seq<U16>)
    requires units != []
    ensures Basic(units) <==> !High(units[0]) && Basic(units[1..])
  {
    assert units == [units[0]] + units[1..];
  }

  /** The reader recovers a string from plain UTF-8 exactly when it stays in the basic
      plane; a NUL it does recover. */
  lemma {:induction false} Utf8Decodes(units: seq<U16>)
    requires WellFormed(units)
    ensures DecodeUnits(Utf8(units)) == if Basic(units) then Ok(units) else Err(BadLeadByte)
    decreases |units|
  {
    hide EncodeUnit, BasicUtf8, PairUtf8;
    if units != [] {
      BasicCons(units);
      if !High(units[0]) {
        Utf8Decodes(units[1..]);
        DecodeBasic(units[0], Utf8(units[1..]));
        assert [units[0]] + units[1..] == units;
      }
    }
  }

  /** And with its length prefix, followed by anything, exactly when it also fits. */
  lemma Utf8ReadBack(units: seq<U16>, rest: seq<Byte>)
    requires WellFormed(units)
    ensures ReadUtf(Prefixed(Utf8(units)) + rest) == Ok((units, rest)) <==> Basic(units) && |Utf8(units)| < TWO_16
    ensures !Basic(units) && |Utf8(units)| < TWO_16 ==> ReadUtf(Prefixed(Utf8(units)) + rest) == Err(BadLeadByte)
  {
    hide ToBe, ReadUtf, Utf8, WellFormed, DecodeUnits, Basic;
    var text := Utf8(units);
    var len := |text| % TWO_16;
    ReadLayout(len, text, rest);
    Utf8Decodes(units);
    if |text| < TWO_16 {
      assert text[..len] == text && text[len..] + rest == rest;
    } else {
      assert |text[len..] + rest| > |rest|;
    }
  }

  lemma {:induction false} PlainAgrees(units: seq<U16>)
    requires WellFormed(units) && Plain(units)
    ensures Utf8(units) == Body(units)
  {
    if units != [] {
      BasicCons(units);
      PlainAgrees(units[1..]);
    }
  }

  /** Otherwise the two forms part at the first character where they differ. */
  lemma {:induction false} FormsPart(units: seq<U16>) returns (i: nat)
    requires WellFormed(units) && !Plain(units)
    ensures i < |Utf8(units)| && i < |Body(units)| && Utf8(units)[i] != Body(units)[i]
    decreases |units|
  {
    hide EncodeUnit, BasicUtf8, PairUtf8;
    FirstBytes(units[0]);
    if High(units[0]) || units[0] == 0 {
      i := 0;
    } else {
      BasicCons(units);
      assert units == [units[0]] + units[1..];
      var k := FormsPart(units[1..]);
      i := |EncodeUnit(units[0])| + k;
    }
  }

  lemma FirstBytes(c: U16)
    ensures EncodeUnit(c)[0] < 240 && (c == 0 ==> EncodeUnit(c)[0] != 0 && BasicUtf8(c) == [0])
    ensures c != 0 ==> BasicUtf8(c) == EncodeUnit(c)
  {
  }

  /** Rewriting finds a string where it was written exactly when it is plain. */
  lemma WrittenIsFound(before: seq<Byte>, units: seq<U16>, rest: seq<Byte>)
    requires WellFormed(units)
    ensures OccursAt(before + WriteUtf(units) + rest, Prefixed(Utf8(units)), |before|) <==> Plain(units)
  {
    hide ToBe, Utf8, Body, WellFormed, Plain;
    var bytes, needle := before + WriteUtf(units) + rest, Prefixed(Utf8(units));
    if Plain(units) {
      PlainAgrees(units);
      assert bytes[|before|..|before| + |needle|] == needle;
    } else {
      var i := FormsPart(units);
      assert needle[2 + i] == Utf8(units)[i] && bytes[|before| + 2 + i] == Body(units)[i];
    }
  }

  predicate Readable(units: seq<U16>)
    requires WellFormed(units)
  {
    Basic(units) && |Utf8(units)| < TWO_16
  }

  /** Rewriting changes one string and nothing else: the bytes before it stay, and a
      reader positioned there gets the old string before and the new string after, each
      followed by the same bytes, exactly if that string can be read back at all. */
  lemma RewriteChangesOneString(bytes: seq<Byte>, old': seq<U16>, new': seq<U16>, at: nat)
    requires WellFormed(old') && WellFormed(new') && OccursAt(bytes, Prefixed(Utf8(old')), at)
    ensures var rest := bytes[at + |Prefixed(Utf8(old'))|..];
            var out := bytes[..at] + Prefixed(Utf8(new')) + rest;
            && out[..at] == bytes[..at]
            && (ReadUtf(bytes[at..]) == Ok((old', rest)) <==> Readable(old'))
            && (ReadUtf(out[at..]) == Ok((new', rest)) <==> Readable(new'))
  {
    hide ToBe, ReadUtf, Utf8, WellFormed;
    var n := |Prefixed(Utf8(old'))|;
    var rest := bytes[at + n..];
    var out := bytes[..at] + Prefixed(Utf8(new')) + rest;
    assert bytes[at..] == Prefixed(Utf8(old')) + rest;
    assert out[at..] == Prefixed(Utf8(new')) + rest;
    Utf8ReadBack(old', rest);
    Utf8ReadBack(new', rest);
  }

  /** A replacement holding U+1F600 can no longer be read. */
  lemma RewrittenEmoji(rest: seq<Byte>)
    ensures WellFormed([0xD83D, 0xDE00]) && Utf8([0xD83D, 0xDE00]) == [0xF0, 0x9F, 0x98, 0x80]
    ensures ReadUtf(Prefixed(Utf8([0xD83D, 0xDE00])) + rest) == Err(BadLeadByte)
  {
    var units: seq<U16> := [0xD83D, 0xDE00];
    assert units[2..] == [] && WellFormed(units);
    assert Utf8(units) == PairUtf8(0xD83D, 0xDE00);
    assert High(units[0]);
    Utf8ReadBack(units, rest);
  }
}
