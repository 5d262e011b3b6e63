/** Blob files: framed entries, a delta-varint index of entry lengths, and a
five-byte footer. The writer is the fixture writer, which lays bytes out as the
production one does; the reader is the production index loader and entry decoder.

CRC32 is a parameter: nothing below depends on which checksum it is.
*/
module BlobFile {
  import opened Bytes
  import DV = DeltaVarint
  import opened Options

  const MAGIC: I32 := 1481511375
  const ENTRY_OVERHEAD: nat := 16
  const HEADER_SIZE: nat := 4
  const TRAILER_SIZE: nat := 12
  const FOOTER_SIZE: nat := 5
  const FORMAT_VERSION: Byte := 1
  const TAIL_PREFETCH_SIZE: nat := 4096

  datatype Row = Value(payload: seq<Byte>) | Null | Placeholder

  datatype Failure =
    | TooSmall | NegativeIndexLength | UnsupportedVersion | IndexTooLong | BadIndex(error: DV.Error)
    | NegativeLength | BelowOverhead | LengthOverflow | BeyondDataRegion | Unindexed
    | ShortEntry | BadMagic | LengthMismatch | BadChecksum

  datatype Result<+T> = Ok(value: T) | Err(failure: Failure)

  /** One index slot: where the payload of a value lies in the file. */
  datatype Slot = Payload(start: nat, end: nat) | NullSlot | PlaceholderSlot

  type Checksum = seq<Byte> -> U32

  // ---------------------------------------------------------------- writing

  function LengthOf(row: Row): (n: int)
    ensures row.Value? ==> n >= 16
  {
    match row
    case Value(payload) => |payload| + ENTRY_OVERHEAD
    case Null => -1
    case Placeholder => -2
  }

  function Lengths(rows: seq<Row>): (s: seq<int>)
    ensures |s| == |rows|
    ensures forall i :: 0 <= i < |rows| ==> s[i] == LengthOf(rows[i])
  {
    seq(|rows|, i requires 0 <= i < |rows| => LengthOf(rows[i]))
  }

  /** Everything the checksum covers: magic, payload and entry length. */
  function Body(payload: seq<Byte>): (s: seq<Byte>)
    ensures |s| == |payload| + 12
  {
    ToLe(MAGIC, 4) + payload + ToLe(|payload| + ENTRY_OVERHEAD, 8)
  }

  function Entry(crc: Checksum, payload: seq<Byte>): (s: seq<Byte>)
    ensures |s| == |payload| + ENTRY_OVERHEAD
  {
    Body(payload) + ToLe(crc(Body(payload)), 4)
  }

  function RowBytes(crc: Checksum, row: Row): (s: seq<Byte>) {
    match row
    case Value(payload) => Entry(crc, payload)
    case Null => []
    case Placeholder => []
  }

  function Data(crc: Checksum, rows: seq<Row>): (s: seq<Byte>) {
    if rows == [] then [] else RowBytes(crc, rows[0]) + Data(crc, rows[1..])
  }

  predicate LengthsFit(rows: seq<Row>) {
    forall i :: 0 <= i < |rows| ==> FitsI64(LengthOf(rows[i]))
  }

  /** The file, or None where the writer panics: an entry length beyond i64 or an
      index length beyond i32. */
  function FileOf(crc: Checksum, rows: seq<Row>): (file: Option<seq<Byte>>) {
    if !LengthsFit(rows) then None else
      var index := DV.EncodeSpec(Lengths(rows));
      if |index| >= TWO_31 then None else
        Some(Data(crc, rows) + index + ToLe(|index|, 4) + [FORMAT_VERSION])
  }

  lemma DataStep(crc: Checksum, rows: seq<Row>, i: nat, before: seq<Byte>)
    requires i < |rows|
    ensures before + Data(crc, rows[i..]) == before + RowBytes(crc, rows[i]) + Data(crc, rows[i + 1..])
  {
    assert rows[i..][1..] == rows[i + 1..];
  }

  lemma LengthsStep(rows: seq<Row>, i: nat)
    requires i < |rows|
    ensures Lengths(rows[..i + 1]) == Lengths(rows[..i]) + [LengthOf(rows[i])]
  {
    assert rows[..i + 1] == rows[..i] + [rows[i]];
  }

  method BuildBlobFile(crc: Checksum, rows: seq<Row>) returns (file: Option<seq<Byte>>)
    ensures file == FileOf(crc, rows)
  {
    hide Data, Lengths, ToLe, Entry;
    var fileBytes: seq<Byte> := [];
    var lengths: seq<I64> := [];
    assert rows[0..] == rows;
    for i := 0 to |rows|
      invariant forall k :: 0 <= k < i ==> FitsI64(LengthOf(rows[k]))
      invariant lengths == Lengths(rows[..i])
      invariant Data(crc, rows) == fileBytes + Data(crc, rows[i..])
    {
      DataStep(crc, rows, i, fileBytes);
      LengthsStep(rows, i);
      match rows[i]
      case Value(payload) =>
        if |payload| + ENTRY_OVERHEAD >= TWO_63 {
          assert !FitsI64(LengthOf(rows[i]));
          return None;
        }
        var entryLength: I64 := |payload| + ENTRY_OVERHEAD;
        lengths := lengths + [entryLength];
        var entry := WriteEntry(crc, payload, entryLength);
        assert entry == RowBytes(crc, rows[i]);
        fileBytes := fileBytes + entry;
      case Null =>
        lengths := lengths + [-1];
        assert fileBytes + RowBytes(crc, rows[i]) == fileBytes;
      case Placeholder =>
        lengths := lengths + [-2];
        assert fileBytes + RowBytes(crc, rows[i]) == fileBytes;
    }
    assert rows[..|rows|] == rows;
    assert rows[|rows|..] == [];
    DataNil(crc);
    assert fileBytes + [] == fileBytes;
    var indexBytes := DV.EncodeDeltaVarints(lengths);
    if |indexBytes| >= TWO_31 {
      return None;
    }
    fileBytes := fileBytes + indexBytes;
    fileBytes := fileBytes + ToLe(|indexBytes|, 4);
    fileBytes := fileBytes + [FORMAT_VERSION];
    file := Some(fileBytes);
  }

  lemma DataNil(crc: Checksum)
    ensures Data(crc, []) == []
  {
  }

  /** The value branch of the row loop: bytes go to the file and to the hasher in step. */
  method WriteEntry(crc: Checksum, payload: seq<Byte>, entryLength: I64) returns (entry: seq<Byte>)
    requires entryLength == |payload| + ENTRY_OVERHEAD
    ensures entry == Entry(crc, payload)
  {
    entry := ToLe(MAGIC, 4) + payload;
    var hashed := ToLe(MAGIC, 4);
    hashed := hashed + payload;
    var entryLengthBytes := ToLe(entryLength, 8);
    entry := entry + entryLengthBytes;
    hashed := hashed + entryLengthBytes;
    entry := entry + ToLe(crc(hashed), 4);
  }

  // ---------------------------------------------------------------- reading

  /** The reader's loop over the index from `offset` on. */
  function SlotsFrom(offset: U64, lengths: seq<I64>, dataEnd: U64): (r: Result<seq<Slot>>)
    decreases |lengths|
  {
    if lengths == [] then
      if offset == dataEnd then Ok([]) else Err(Unindexed)
    else
      var n := lengths[0];
      if n == -1 then Cons(NullSlot, SlotsFrom(offset, lengths[1..], dataEnd))
      else if n == -2 then Cons(PlaceholderSlot, SlotsFrom(offset, lengths[1..], dataEnd))
      else if n < 0 then Err(NegativeLength)
      else if n < ENTRY_OVERHEAD then Err(BelowOverhead)
      else if offset + n >= TWO_64 then Err(LengthOverflow)
      else if offset + n > dataEnd then Err(BeyondDataRegion)
      else Cons(Payload(offset + HEADER_SIZE, offset + n - TRAILER_SIZE), SlotsFrom(offset + n, lengths[1..], dataEnd))
  }

  function Cons(slot: Slot, r: Result<seq<Slot>>): (c: Result<seq<Slot>>) {
    match r
    case Err(e) => Err(e)
    case Ok(slots) => Ok([slot] + slots)
  }

  function Prefix(slots: seq<Slot>, r: Result<seq<Slot>>): (p: Result<seq<Slot>>) {
    match r
    case Err(e) => Err(e)
    case Ok(rest) => Ok(slots + rest)
  }

  lemma PrefixStep(slots: seq<Slot>, slot: Slot, r: Result<seq<Slot>>)
    ensures Prefix(slots, Cons(slot, r)) == Prefix(slots + [slot], r)
    ensures Prefix([], r) == r
  {
    if r.Ok? {
      assert slots + ([slot] + r.value) == slots + [slot] + r.value;
      assert [] + r.value == r.value;
    }
  }

  method BuildAll(lengths: seq<I64>, dataEnd: U64) returns (r: Result<seq<Slot>>)
    ensures r == SlotsFrom(0, lengths, dataEnd)
  {
    var entries: seq<Slot> := [];
    var nextOffset: U64 := 0;
    assert lengths[0..] == lengths;
    PrefixStep([], NullSlot, SlotsFrom(0, lengths, dataEnd));
    for i := 0 to |lengths|
      invariant SlotsFrom(0, lengths, dataEnd) == Prefix(entries, SlotsFrom(nextOffset, lengths[i..], dataEnd))
    {
      var n := lengths[i];
      var rest := lengths[i + 1..];
      assert lengths[i..][1..] == rest;
      if n == -1 {
        PrefixStep(entries, NullSlot, SlotsFrom(nextOffset, rest, dataEnd));
        entries := entries + [NullSlot];
        continue;
      }
      if n == -2 {
        PrefixStep(entries, PlaceholderSlot, SlotsFrom(nextOffset, rest, dataEnd));
        entries := entries + [PlaceholderSlot];
        continue;
      }
      if n < 0 { return Err(NegativeLength); }
      if n < ENTRY_OVERHEAD { return Err(BelowOverhead); }
      if nextOffset + n >= TWO_64 { return Err(LengthOverflow); }
      var entryEnd := nextOffset + n;
      if entryEnd > dataEnd { return Err(BeyondDataRegion); }
      var dataOffset := nextOffset + HEADER_SIZE;
      var dataLength := n - ENTRY_OVERHEAD;
      var slot := Payload(dataOffset, dataOffset + dataLength);
      PrefixStep(entries, slot, SlotsFrom(entryEnd, rest, dataEnd));
      entries := entries + [slot];
      nextOffset := entryEnd;
    }
    if nextOffset != dataEnd { return Err(Unindexed); }
    assert entries + [] == entries;
    r := Ok(entries);
  }

  predicate ValidLength(n: int) { n == -1 || n == -2 || n >= ENTRY_OVERHEAD }

  /** Bytes the first values of an index occupy: only non-negative lengths take room. */
  function Occupied(lengths: seq<int>): (total: nat) {
    if lengths == [] then 0 else (if lengths[0] > 0 then lengths[0] else 0) + Occupied(lengths[1..])
  }

  /** The index is accepted exactly when every length is a marker or covers the
      overhead, and together they fill the data region to the byte. */
  lemma {:induction false} SlotsAccepted(offset: U64, lengths: seq<I64>, dataEnd: U64)
    ensures SlotsFrom(offset, lengths, dataEnd).Ok?
       <==> (forall i :: 0 <= i < |lengths| ==> ValidLength(lengths[i])) && offset + Occupied(lengths) == dataEnd
    decreases |lengths|
  {
    if lengths != [] {
      var n, rest := lengths[0], lengths[1..];
      assert forall i :: 0 <= i < |rest| ==> rest[i] == lengths[i + 1];
      assert lengths == [n] + rest;
      if n == -1 || n == -2 {
        SlotsAccepted(offset, rest, dataEnd);
      } else if n >= ENTRY_OVERHEAD && offset + n <= dataEnd {
        SlotsAccepted(offset + n, rest, dataEnd);
      }
    }
  }

  /** Accepted slots tile the data region: the entry of slot `i` starts where the
      entries before it end, and none reaches past the region. */
  lemma {:induction false} SlotsTile(offset: U64, lengths: seq<I64>, dataEnd: U64, i: nat)
    requires SlotsFrom(offset, lengths, dataEnd).Ok? && i < |lengths|
    ensures |SlotsFrom(offset, lengths, dataEnd).value| == |lengths|
    ensures var slot := SlotsFrom(offset, lengths, dataEnd).value[i];
            var at := offset + Occupied(lengths[..i]);
            && (slot.Payload? <==> lengths[i] >= 0)
            && (slot.Payload? ==>
                  && slot.start == at + HEADER_SIZE <= slot.end
                  && slot.end + TRAILER_SIZE == at + lengths[i] <= dataEnd)
    decreases |lengths|
  {
    var n, rest := lengths[0], lengths[1..];
    var next := if n >= 0 then offset + n else offset;
    if i == 0 {
      assert lengths[..0] == [];
      if rest != [] { SlotsTile(next, rest, dataEnd, 0); }
    } else {
      SlotsTile(next, rest, dataEnd, i - 1);
      assert lengths[..i][1..] == rest[..i - 1];
    }
  }

  /** The index loader without the tail prefetch: footer, index, slots. */
  function LoadSpec(file: seq<Byte>): (r: Result<seq<Slot>>)
    requires |file| < TWO_64
  {
    var size := |file|;
    if size < FOOTER_SIZE then Err(TooSmall) else
      RadixValues();
      var indexLength := Signed(FromLe(file[size - 5..size - 1]), TWO_32);
      if indexLength < 0 then Err(NegativeIndexLength)
      else if file[size - 1] != FORMAT_VERSION then Err(UnsupportedVersion)
      else if indexLength > size - FOOTER_SIZE then Err(IndexTooLong)
      else
        var indexStart := size - FOOTER_SIZE - indexLength;
        SlotsIn(file[indexStart..size - FOOTER_SIZE], indexStart)
  }

  function SlotsIn(index: seq<Byte>, dataEnd: U64): (r: Result<seq<Slot>>) {
    match DV.DecodeDeltasSpec(index)
    case Err(e) => Err(BadIndex(e))
    case Ok(lengths) => SlotsFrom(0, lengths, dataEnd)
  }

  /** The loader as written: one read of the last 4 KiB serves footer and index,
      and only an index that starts earlier costs a second read. */
  method LoadIndex(file: seq<Byte>) returns (r: Result<seq<Slot>>, ghost requests: nat)
    requires |file| < TWO_64
    ensures r == LoadSpec(file)
    ensures requests <= 2 && (r.Ok? && |file| <= TAIL_PREFETCH_SIZE ==> requests == 1)
  {
    hide SlotsFrom, DV.DecodeDeltasSpec, FromLe, Radix;
    requests := 0;
    var size := |file|;
    if size < FOOTER_SIZE { return Err(TooSmall), requests; }
    var tailStart := size - (if size < TAIL_PREFETCH_SIZE then size else TAIL_PREFETCH_SIZE);
    var tail := file[tailStart..size];
    requests := 1;
    var footerStart := |tail| - FOOTER_SIZE;
    var footer := tail[footerStart..];
    assert footer[..4] == file[size - 5..size - 1];
    RadixValues();
    var indexLength := Signed(FromLe(footer[..4]), TWO_32);
    if indexLength < 0 { return Err(NegativeIndexLength), requests; }
    if footer[4] != FORMAT_VERSION { return Err(UnsupportedVersion), requests; }
    if indexLength > size - FOOTER_SIZE { return Err(IndexTooLong), requests; }
    var indexStart := size - FOOTER_SIZE - indexLength;
    var indexBytes;
    if indexStart >= tailStart {
      indexBytes := tail[indexStart - tailStart..footerStart];
    } else {
      indexBytes := file[indexStart..size - FOOTER_SIZE];
      requests := 2;
    }
    SliceOfTail(file, tailStart, indexStart);
    assert indexBytes == file[indexStart..size - FOOTER_SIZE];
    var lengths := DV.DecodeDeltaVarints(indexBytes);
    if lengths.Err? { return Err(BadIndex(lengths.error)), requests; }
    r := BuildAll(lengths.value, indexStart);
  }

  lemma SliceOfTail(file: seq<Byte>, tailStart: nat, indexStart: nat)
    requires |file| >= FOOTER_SIZE && tailStart <= |file| && indexStart <= |file| - FOOTER_SIZE
    ensures tailStart <= indexStart ==>
              file[tailStart..|file|][indexStart - tailStart..|file| - tailStart - FOOTER_SIZE] == file[indexStart..|file| - FOOTER_SIZE]
  {
    if tailStart <= indexStart {
      var x, y := file[tailStart..|file|][indexStart - tailStart..|file| - tailStart - FOOTER_SIZE], file[indexStart..|file| - FOOTER_SIZE];
      forall i | 0 <= i < |y| ensures x[i] == y[i] {
        assert x[i] == file[tailStart..|file|][indexStart - tailStart + i] == file[indexStart + i];
      }
    }
  }

  /** Check and unwrap one entry whose range the index declared. */
  function DecodeEntry(crc: Checksum, entry: seq<Byte>, start: nat, end: nat): (r: Result<seq<Byte>>)
    requires start + ENTRY_OVERHEAD <= end
    ensures r.Ok? ==> |r.value| + ENTRY_OVERHEAD == |entry| == end - start
  {
    RadixValues();
    if |entry| != end - start then Err(ShortEntry)
    else if Signed(FromLe(entry[..HEADER_SIZE]), TWO_32) != MAGIC then Err(BadMagic)
    else
      var lengthAt := |entry| - TRAILER_SIZE;
      var crcAt := |entry| - 4;
      if Signed(FromLe(entry[lengthAt..crcAt]), TWO_64) != end - start then Err(LengthMismatch)
      else if crc(entry[..crcAt]) != FromLe(entry[crcAt..]) then Err(BadChecksum)
      else Ok(entry[HEADER_SIZE..lengthAt])
  }

  predicate InFile(slot: Slot, size: nat) {
    slot.Payload? ==> HEADER_SIZE <= slot.start <= slot.end && slot.end + TRAILER_SIZE <= size
  }

  function ReadSlot(crc: Checksum, file: seq<Byte>, slot: Slot): (r: Result<Row>)
    requires InFile(slot, |file|)
  {
    match slot
    case NullSlot => Ok(Null)
    case PlaceholderSlot => Ok(Placeholder)
    case Payload(start, end) =>
      var lo, hi := start - HEADER_SIZE, end + TRAILER_SIZE;
      match DecodeEntry(crc, file[lo..hi], lo, hi)
      case Err(e) => Err(e)
      case Ok(payload) => Ok(Value(payload))
  }

  function ReadSlots(crc: Checksum, file: seq<Byte>, slots: seq<Slot>): (r: Result<seq<Row>>)
    requires forall i :: 0 <= i < |slots| ==> InFile(slots[i], |file|)
  {
    if slots == [] then Ok([]) else
      match ReadSlot(crc, file, slots[0])
      case Err(e) => Err(e)
      case Ok(row) =>
        match ReadSlots(crc, file, slots[1..])
        case Err(e) => Err(e)
        case Ok(rows) => Ok([row] + rows)
  }

  lemma SlotsInRegion(index: seq<Byte>, dataEnd: U64)
    requires SlotsIn(index, dataEnd).Ok?
    ensures var slots := SlotsIn(index, dataEnd).value;
            forall i :: 0 <= i < |slots| ==> InFile(slots[i], dataEnd)
  {
    hide SlotsFrom, DV.DecodeDeltasSpec;
    var lengths := DV.DecodeDeltasSpec(index).value;
    var slots := SlotsIn(index, dataEnd).value;
    if lengths == [] {
      SlotsFromNil(0, dataEnd);
    } else {
      SlotsTile(0, lengths, dataEnd, 0);
    }
    forall i | 0 <= i < |slots| ensures InFile(slots[i], dataEnd) {
      SlotsTile(0, lengths, dataEnd, i);
    }
  }

  lemma SlotsFromNil(offset: U64, dataEnd: U64)
    ensures SlotsFrom(offset, [], dataEnd).Ok? ==> SlotsFrom(offset, [], dataEnd) == Ok([])
  {
  }

  lemma LoadedInFile(file: seq<Byte>)
    requires |file| < TWO_64 && LoadSpec(file).Ok?
    ensures var slots := LoadSpec(file).value;
            forall i :: 0 <= i < |slots| ==> InFile(slots[i], |file|)
  {
    hide SlotsIn, FromLe;
    var size := |file|;
    RadixValues();
    var indexStart := size - FOOTER_SIZE - Signed(FromLe(file[size - 5..size - 1]), TWO_32);
    SlotsInRegion(file[indexStart..size - FOOTER_SIZE], indexStart);
  }

  /** Every row of the file, in order. */
  function ReadFile(crc: Checksum, file: seq<Byte>): (r: Result<seq<Row>>)
    requires |file| < TWO_64
  {
    match LoadSpec(file)
    case Err(e) => Err(e)
    case Ok(slots) => LoadedInFile(file); ReadSlots(crc, file, slots)
  }

  // ------------------------------------------------------------- round trip

  lemma EntryParts(crc: Checksum, payload: seq<Byte>)
    ensures var n, entry := |payload|, Entry(crc, payload);
      && entry[..4] == ToLe(MAGIC, 4)
      && entry[4..n + 4] == payload
      && entry[n + 4..n + 12] == ToLe(n + ENTRY_OVERHEAD, 8)
      && entry[..n + 12] == Body(payload)
      && entry[n + 12..] == ToLe(crc(Body(payload)), 4)
  {
    hide ToLe;
  }

  /** The magic number as it stands in the file. */
  lemma MagicBytes()
    ensures ToLe(MAGIC, 4) == [0xCF, 0x11, 0x4E, 0x58]
  {
    ByteOrder(MAGIC, 4, 0);
    ByteOrder(MAGIC, 4, 1);
    ByteOrder(MAGIC, 4, 2);
    ByteOrder(MAGIC, 4, 3);
    assert Radix(1) == 256 && Radix(2) == 65536 && Radix(3) == 16777216;
    hide ToLe;
  }

  /** What is wrong with an entry of the right size: the magic number is looked at first,
      then the length, then the checksum over all before it. */
  lemma EntryFaults(crc: Checksum, entry: seq<Byte>, start: nat, end: nat)
    requires start + ENTRY_OVERHEAD <= end && FitsI64(end - start) && |entry| == end - start
    ensures var n, r := |entry|, DecodeEntry(crc, entry, start, end);
      var magic := entry[..4] == [0xCF, 0x11, 0x4E, 0x58];
      var length := entry[n - 12..n - 4] == ToLe(n, 8);
      var checksum := entry[n - 4..] == ToLe(crc(entry[..n - 4]), 4);
      && (r == Err(BadMagic) <==> !magic)
      && (r == Err(LengthMismatch) <==> magic && !length)
      && (r == Err(BadChecksum) <==> magic && length && !checksum)
      && (r == Ok(entry[4..n - 12]) <==> magic && length && checksum)
  {
    var n := |entry|;
    MagicIff(entry[..4]);
    LengthIff(entry[n - 12..n - 4], n);
    RadixValues();
    LeIff(entry[n - 4..], crc(entry[..n - 4]));
    hide ToLe, FromLe, Radix, Signed;
  }

  lemma MagicIff(s: seq<Byte>)
    requires |s| == 4
    ensures FromLe(s) < TWO_32 && (Signed(FromLe(s), TWO_32) == MAGIC <==> s == [0xCF, 0x11, 0x4E, 0x58])
  {
    RadixValues();
    MagicBytes();
    LeIff(s, MAGIC);
    hide ToLe, FromLe, Radix;
  }

  lemma LengthIff(s: seq<Byte>, n: nat)
    requires |s| == 8 && n < TWO_63
    ensures FromLe(s) < TWO_64 && (Signed(FromLe(s), TWO_64) == n <==> s == ToLe(n, 8))
  {
    RadixValues();
    LeIff(s, n);
    hide ToLe, FromLe, Radix;
  }

  lemma LeIff(s: seq<Byte>, v: nat)
    requires v < Radix(|s|)
    ensures FromLe(s) == v <==> s == ToLe(v, |s|)
  {
    LeRoundTrip(v, |s|);
    LeOnto(s);
  }

  lemma EntryRoundTrip(crc: Checksum, payload: seq<Byte>, at: nat)
    requires FitsI64(|payload| + ENTRY_OVERHEAD)
    ensures DecodeEntry(crc, Entry(crc, payload), at, at + |payload| + ENTRY_OVERHEAD) == Ok(payload)
  {
    hide Entry, Body, ToLe, FromLe, Radix;
    EntryParts(crc, payload);
    RadixValues();
    LeRoundTrip(MAGIC, 4);
    LeRoundTrip(|payload| + ENTRY_OVERHEAD, 8);
    LeRoundTrip(crc(Body(payload)), 4);
  }

  /** An entry decodes to a payload if and only if it is, byte for byte, the entry of that
      payload: one damaged bit anywhere and it is refused, unless the checksum agrees. */
  lemma DecodedIsEntry(crc: Checksum, entry: seq<Byte>, start: nat, end: nat, payload: seq<Byte>)
    requires start + ENTRY_OVERHEAD <= end && FitsI64(end - start)
    ensures DecodeEntry(crc, entry, start, end) == Ok(payload) <==> entry == Entry(crc, payload) && |entry| == end - start
  {
    hide DecodeEntry, Entry, ToLe;
    if entry == Entry(crc, payload) && |entry| == end - start {
      EntryRoundTrip(crc, payload, start);
    }
    if DecodeEntry(crc, entry, start, end) == Ok(payload) {
      EntryFaults(crc, entry, start, end);
      Assembled(crc, entry);
    }
  }

  /** Bytes with the right magic number, length and checksum are an entry. */
  lemma Assembled(crc: Checksum, entry: seq<Byte>)
    requires |entry| >= ENTRY_OVERHEAD
    ensures var n := |entry|;
      entry[..4] == [0xCF, 0x11, 0x4E, 0x58] && entry[n - 12..n - 4] == ToLe(n, 8) && entry[n - 4..] == ToLe(crc(entry[..n - 4]), 4)
      ==> entry == Entry(crc, entry[4..n - 12])
  {
    MagicBytes();
    hide ToLe;
    var n := |entry|;
    assert entry[..n - 4] == entry[..4] + entry[4..n - 12] + entry[n - 12..n - 4];
    assert entry == entry[..n - 4] + entry[n - 4..];
  }

  /** Where the writer put each row, counted from `at`. */
  function SlotsOf(at: nat, rows: seq<Row>): (slots: seq<Slot>)
    ensures |slots| == |rows|
    decreases |rows|
  {
    if rows == [] then [] else
      match rows[0]
      case Value(p) => [Payload(at + HEADER_SIZE, at + HEADER_SIZE + |p|)] + SlotsOf(at + |p| + ENTRY_OVERHEAD, rows[1..])
      case Null => [NullSlot] + SlotsOf(at, rows[1..])
      case Placeholder => [PlaceholderSlot] + SlotsOf(at, rows[1..])
  }

  lemma LengthsTail(rows: seq<Row>)
    requires rows != []
    ensures Lengths(rows)[1..] == Lengths(rows[1..]) && Lengths(rows)[0] == LengthOf(rows[0])
  {
  }

  lemma {:induction false} IndexFindsRows(crc: Checksum, at: U64, rows: seq<Row>, dataEnd: U64)
    requires LengthsFit(rows) && at + |Data(crc, rows)| == dataEnd
    ensures SlotsFrom(at, Lengths(rows), dataEnd) == Ok(SlotsOf(at, rows))
    decreases |rows|
  {
    if rows != [] {
      LengthsTail(rows);
      assert forall i :: 0 <= i < |rows[1..]| ==> rows[1..][i] == rows[i + 1];
      match rows[0]
      case Value(p) => IndexFindsRows(crc, at + |p| + ENTRY_OVERHEAD, rows[1..], dataEnd);
      case Null => IndexFindsRows(crc, at, rows[1..], dataEnd);
      case Placeholder => IndexFindsRows(crc, at, rows[1..], dataEnd);
    }
  }

  function FirstSlot(at: nat, row: Row): (slot: Slot) {
    match row
    case Value(p) => Payload(at + HEADER_SIZE, at + HEADER_SIZE + |p|)
    case Null => NullSlot
    case Placeholder => PlaceholderSlot
  }

  lemma ReadsItsRow(crc: Checksum, before: seq<Byte>, row: Row, after: seq<Byte>)
    requires FitsI64(LengthOf(row))
    ensures var file := before + RowBytes(crc, row) + after;
            InFile(FirstSlot(|before|, row), |file|) && ReadSlot(crc, file, FirstSlot(|before|, row)) == Ok(row)
  {
    var file := before + RowBytes(crc, row) + after;
    if row.Value? {
      var p := row.payload;
      EntryRoundTrip(crc, p, |before|);
      hide DecodeEntry, Entry;
      assert file[|before|..|before| + |p| + ENTRY_OVERHEAD] == Entry(crc, p);
    }
  }

  lemma SlotsNil(crc: Checksum, file: seq<Byte>, at: nat)
    ensures SlotsOf(at, []) == [] && ReadSlots(crc, file, []) == Ok([])
  {
  }

  lemma SlotsOfStep(at: nat, crc: Checksum, rows: seq<Row>)
    requires rows != []
    ensures SlotsOf(at, rows) == [FirstSlot(at, rows[0])] + SlotsOf(at + |RowBytes(crc, rows[0])|, rows[1..])
  {
  }

  lemma ReadSlotsStep(crc: Checksum, file: seq<Byte>, slot: Slot, slots: seq<Slot>, row: Row, rows: seq<Row>)
    requires InFile(slot, |file|) && forall i :: 0 <= i < |slots| ==> InFile(slots[i], |file|)
    requires ReadSlot(crc, file, slot) == Ok(row) && ReadSlots(crc, file, slots) == Ok(rows)
    ensures forall i :: 0 <= i < |[slot] + slots| ==> InFile(([slot] + slots)[i], |file|)
    ensures ReadSlots(crc, file, [slot] + slots) == Ok([row] + rows)
  {
    assert ([slot] + slots)[1..] == slots;
  }

  lemma {:induction false} SlotsReadRows(crc: Checksum, before: seq<Byte>, rows: seq<Row>, after: seq<Byte>)
    requires LengthsFit(rows)
    ensures var file := before + Data(crc, rows) + after;
            var slots := SlotsOf(|before|, rows);
            && (forall i :: 0 <= i < |slots| ==> InFile(slots[i], |file|))
            && ReadSlots(crc, file, slots) == Ok(rows)
    decreases |rows|
  {
    hide ReadSlot, ReadSlots, SlotsOf, Data, RowBytes, FirstSlot, InFile, LengthOf;
    if rows == [] {
      SlotsNil(crc, before + Data(crc, rows) + after, |before|);
    } else {
      SlotsOfStep(|before|, crc, rows);
      var head, rest := RowBytes(crc, rows[0]), rows[1..];
      DataStep(crc, rows, 0, before);
      assert rows[0..] == rows;
      var tail := Data(crc, rest) + after;
      var file := before + head + tail;
      assert before + Data(crc, rows) + after == file;
      assert before + head + Data(crc, rest) + after == file;
      SlotsReadRows(crc, before + head, rest, after);
      ReadsItsRow(crc, before, rows[0], tail);
      ReadSlotsStep(crc, file, FirstSlot(|before|, rows[0]), SlotsOf(|before + head|, rest), rows[0], rest);
      assert [rows[0]] + rest == rows;
    }
  }

  lemma LoadAt(file: seq<Byte>, indexStart: nat)
    requires |file| < TWO_64 && indexStart + FOOTER_SIZE <= |file| && file[|file| - 1] == FORMAT_VERSION
    requires FromLe(file[|file| - 5..|file| - 1]) == |file| - FOOTER_SIZE - indexStart < TWO_31
    ensures LoadSpec(file) == SlotsIn(file[indexStart..|file| - FOOTER_SIZE], indexStart)
  {
    hide SlotsIn, FromLe;
    RadixValues();
    hide Radix;
    assert Signed(|file| - FOOTER_SIZE - indexStart, TWO_32) == |file| - FOOTER_SIZE - indexStart;
  }

  /** The loader finds index and data region in any file with this layout. */
  lemma LoadLayout(data: seq<Byte>, index: seq<Byte>)
    requires |index| < TWO_31 && |data| + |index| + 5 < TWO_64
    ensures LoadSpec(data + index + ToLe(|index|, 4) + [FORMAT_VERSION]) == SlotsIn(index, |data|)
  {
    hide LoadSpec, SlotsIn;
    var file := data + index + ToLe(|index|, 4) + [FORMAT_VERSION];
    var size := |file|;
    RadixValues();
    LeRoundTrip(|index|, 4);
    hide ToLe, FromLe, Radix;
    assert file[size - 5..size - 1] == ToLe(|index|, 4);
    assert file[|data|..size - 5] == index;
    LoadAt(file, |data|);
  }

  lemma {:induction false} LoadWritten(crc: Checksum, rows: seq<Row>)
    requires FileOf(crc, rows).Some? && |FileOf(crc, rows).value| < TWO_64
    ensures LoadSpec(FileOf(crc, rows).value)
         == if DV.NeighboursFit(Lengths(rows)) then Ok(SlotsOf(0, rows)) else Err(BadIndex(DV.SumOverflow))
  {
    hide LoadSpec, SlotsOf, SlotsFrom, Data, DV.DecodeDeltasSpec, DV.EncodeSpec;
    var data, lengths := Data(crc, rows), Lengths(rows);
    DV.DeltaRoundTrip(lengths);
    IndexFindsRows(crc, 0, rows, |data|);
    LoadLayout(data, DV.EncodeSpec(lengths));
  }

  /** What the writer wrote, the reader gives back, row for row: always, unless two
      neighbouring entry lengths are further apart than i64 can say. */
  lemma BlobRoundTrip(crc: Checksum, rows: seq<Row>)
    requires FileOf(crc, rows).Some? && |FileOf(crc, rows).value| < TWO_64
    ensures ReadFile(crc, FileOf(crc, rows).value)
         == if DV.NeighboursFit(Lengths(rows)) then Ok(rows) else Err(BadIndex(DV.SumOverflow))
  {
    hide LoadSpec, ReadSlots, SlotsOf, Data, DV.DecodeDeltasSpec, DV.EncodeSpec, DV.NeighboursFit, Lengths;
    var data, index := Data(crc, rows), DV.EncodeSpec(Lengths(rows));
    LoadWritten(crc, rows);
    var after := index + ToLe(|index|, 4) + [FORMAT_VERSION];
    SlotsReadRows(crc, [], rows, after);
    assert [] + data + after == FileOf(crc, rows).value;
  }

  /** A file with no rows, with one null and with one placeholder, byte by byte. */
  lemma SmallestFiles(crc: Checksum)
    ensures FileOf(crc, []) == Some([0, 0, 0, 0, 1])
    ensures FileOf(crc, [Null]) == Some([1, 1, 0, 0, 0, 1])
    ensures FileOf(crc, [Placeholder]) == Some([3, 1, 0, 0, 0, 1])
  {
    hide FileOf;
    NoData(crc, [], []);
    DV.EncodeFromNil(0);
    assert DV.EncodeSpec([]) == [];
    hide DV.EncodeSpec;
    NoData(crc, [Null], [1]);
    OneLength(-1);
    NoData(crc, [Placeholder], [3]);
    OneLength(-2);
    var none: seq<Row> := [];
    assert Lengths(none) == [] && Lengths([Null]) == [-1] && Lengths([Placeholder]) == [-2];
    assert [] + [0, 0, 0, 0, 1] == [0, 0, 0, 0, 1];
    assert [1] + [1, 0, 0, 0, 1] == [1, 1, 0, 0, 0, 1] && [3] + [1, 0, 0, 0, 1] == [3, 1, 0, 0, 0, 1];
  }

  lemma NoData(crc: Checksum, rows: seq<Row>, index: seq<Byte>)
    requires |rows| <= 1 && (forall i :: 0 <= i < |rows| ==> !rows[i].Value?) && |index| <= 1
    ensures DV.EncodeSpec(Lengths(rows)) == index ==> FileOf(crc, rows) == Some(index + [|index|, 0, 0, 0, 1])
  {
    FooterBytes();
    hide ToLe, DV.EncodeSpec;
    if rows != [] { assert rows[1..] == []; }
    assert Data(crc, rows) == [] && [] + index == index;
    assert index + ToLe(|index|, 4) + [FORMAT_VERSION] == index + [|index|, 0, 0, 0, 1];
  }

  lemma OneLength(n: int)
    requires -32 <= n < 0
    ensures DV.EncodeSpec([n]) == [-2 * n - 1]
  {
    assert [n][1..] == [];
    DV.EncodeFromNil(n);
    assert DV.EncodeFrom(0, [n]) == DV.Groups(DV.ZigZag(WrapI64(n - 0))) + DV.EncodeFrom(n, [n][1..]);
    assert DV.Groups(-2 * n - 1) == [-2 * n - 1];
    assert [-2 * n - 1] + [] == [-2 * n - 1];
  }

  lemma FooterBytes()
    ensures ToLe(0, 4) == [0, 0, 0, 0] && ToLe(1, 4) == [1, 0, 0, 0]
  {
    assert ToLe(0, 3) == [0, 0, 0];
  }

  /** What is wrong with a footer: size first, then the index length's sign, the version,
      and whether the index fits the file. */
  lemma FooterFaults(file: seq<Byte>)
    requires |file| < TWO_64
    ensures LoadSpec(file) == Err(TooSmall) <==> |file| < 5
    ensures |file| >= 5 ==> var n := |file|;
      var length := FromLe(file[n - 5..n - 1]);
      && (LoadSpec(file) == Err(NegativeIndexLength) <==> file[n - 2] >= 128)
      && (LoadSpec(file) == Err(UnsupportedVersion) <==> file[n - 2] < 128 && file[n - 1] != 1)
      && (LoadSpec(file) == Err(IndexTooLong) <==> file[n - 2] < 128 && file[n - 1] == 1 && length > n - 5)
  {
    if |file| >= 5 {
      var n := |file|;
      RadixValues();
      TopByte(file[n - 5..n - 1]);
      hide FromLe, Radix, SlotsIn;
      var length := FromLe(file[n - 5..n - 1]);
      if file[n - 2] < 128 && length <= n - 5 {
        IndexFaults(file[n - 5 - length..n - 5], n - 5 - length);
      }
    }
  }

  /** The index draws complaints of its own. */
  lemma IndexFaults(index: seq<Byte>, dataEnd: U64)
    ensures SlotsIn(index, dataEnd).Err? ==>
      SlotsIn(index, dataEnd).failure !in {TooSmall, NegativeIndexLength, UnsupportedVersion, IndexTooLong}
  {
    hide SlotsFrom, DV.DecodeDeltasSpec;
    SlotFaults(0, DV.DecodeDeltasSpec(index), dataEnd);
  }

  lemma TopByte(s: seq<Byte>)
    requires |s| == 4
    ensures FromLe(s) < TWO_32 && (Signed(FromLe(s), TWO_32) < 0 <==> s[3] >= 128)
  {
    RadixValues();
    var c, d, e := s[1..], s[2..], s[3..];
    assert c[1..] == d && d[1..] == e && e[1..] == [];
    assert FromLe(e) == s[3] && FromLe(d) == s[2] + 256 * FromLe(e) && FromLe(c) == s[1] + 256 * FromLe(d);
  }

  /** Slots draw complaints of their own. */
  lemma {:induction false} SlotFaults(offset: U64, lengths: DV.Result<seq<I64>>, dataEnd: U64)
    ensures lengths.Ok? ==>
      var r := SlotsFrom(offset, lengths.value, dataEnd);
      r.Err? ==> r.failure in {NegativeLength, BelowOverhead, LengthOverflow, BeyondDataRegion, Unindexed}
    decreases if lengths.Ok? then |lengths.value| else 0
  {
    if lengths.Ok? && lengths.value != [] {
      var n, rest := lengths.value[0], DV.Ok(lengths.value[1..]);
      SlotFaults(offset, rest, dataEnd);
      if n >= 0 && offset + n < TWO_64 { SlotFaults(offset + n, rest, dataEnd); }
    }
  }

  /** A file with these rows: the data region the writer lays out, any index that decodes
      to their lengths, the index length and the version. */
  ghost predicate LaidOut(crc: Checksum, file: seq<Byte>, rows: seq<Row>, index: seq<Byte>) {
    && LengthsFit(rows) && |index| < TWO_31
    && file == Data(crc, rows) + index + ToLe(|index|, 4) + [FORMAT_VERSION]
    && DV.DecodeDeltasSpec(index) == DV.Ok(Lengths(rows))
  }

  /** The reader yields rows from exactly the files laid out with those rows. */
  lemma ReadIsLaidOut(crc: Checksum, file: seq<Byte>, rows: seq<Row>)
    requires |file| < TWO_64
    ensures ReadFile(crc, file) == Ok(rows) <==> exists index :: LaidOut(crc, file, rows, index)
  {
    if ReadFile(crc, file) == Ok(rows) {
      ReadsALayout(crc, file, rows);
    }
    if index :| LaidOut(crc, file, rows, index) {
      LayoutReads(crc, file, rows, index);
    }
  }

  lemma LayoutReads(crc: Checksum, file: seq<Byte>, rows: seq<Row>, index: seq<Byte>)
    requires |file| < TWO_64 && LaidOut(crc, file, rows, index)
    ensures ReadFile(crc, file) == Ok(rows)
  {
    hide LoadSpec, ReadSlots, SlotsOf, Data, DV.DecodeDeltasSpec, Lengths, SlotsFrom, ToLe;
    LoadLayout(Data(crc, rows), index);
    IndexFindsRows(crc, 0, rows, |Data(crc, rows)|);
    var after := index + ToLe(|index|, 4) + [FORMAT_VERSION];
    SlotsReadRows(crc, [], rows, after);
    assert [] + Data(crc, rows) + after == file;
  }

  lemma ReadsALayout(crc: Checksum, file: seq<Byte>, rows: seq<Row>)
    requires |file| < TWO_64 && ReadFile(crc, file) == Ok(rows)
    ensures exists index :: LaidOut(crc, file, rows, index)
  {
    hide ToLe, FromLe, Radix, SlotsFrom, ReadSlots, DV.DecodeDeltasSpec, Data, Lengths;
    var size := |file|;
    LoadedInFile(file);
    RadixValues();
    LeOnto(file[size - 5..size - 1]);
    var dataEnd := size - FOOTER_SIZE - FromLe(file[size - 5..size - 1]);
    var index := file[dataEnd..size - FOOTER_SIZE];
    var lengths := DV.DecodeDeltasSpec(index).value;
    RowsInRegion(crc, file, 0, lengths, dataEnd, LoadSpec(file).value, rows);
    assert file[0..dataEnd] == file[..dataEnd];
    assert file == file[..dataEnd] + index + file[size - 5..size - 1] + [file[size - 1]];
    assert LaidOut(crc, file, rows, index);
  }

  /** Slots that all read back leave no byte of the data region unaccounted for. */
  lemma {:induction false} RowsInRegion(crc: Checksum, file: seq<Byte>, at: U64, lengths: seq<I64>, dataEnd: U64, slots: seq<Slot>, rows: seq<Row>)
    requires SlotsFrom(at, lengths, dataEnd) == Ok(slots) && dataEnd <= |file|
    requires (forall i :: 0 <= i < |slots| ==> InFile(slots[i], |file|)) && ReadSlots(crc, file, slots) == Ok(rows)
    ensures at <= dataEnd && LengthsFit(rows) && Lengths(rows) == lengths && file[at..dataEnd] == Data(crc, rows)
    decreases |lengths|
  {
    hide SlotsFrom, ReadSlots, ReadSlot, RowBytes, LengthOf, Data, Lengths, LengthsFit;
    if lengths == [] {
      NoRows(crc, file, at, dataEnd);
    } else {
      var next := SlotsStep(at, lengths, dataEnd);
      RowsStep(crc, file, slots, rows);
      RowsInRegion(crc, file, next, lengths[1..], dataEnd, slots[1..], rows[1..]);
      RowInRegion(crc, file, at, lengths[0], slots[0], rows[0]);
      RowThenRows(crc, rows, lengths);
      assert file[at..dataEnd] == file[at..next] + file[next..dataEnd];
    }
  }

  lemma NoRows(crc: Checksum, file: seq<Byte>, at: U64, dataEnd: U64)
    ensures SlotsFrom(at, [], dataEnd).Ok? ==> at == dataEnd && SlotsFrom(at, [], dataEnd) == Ok([])
    ensures ReadSlots(crc, file, []) == Ok([]) && Data(crc, []) == [] && Lengths([]) == [] && LengthsFit([])
  {
  }

  lemma RowThenRows(crc: Checksum, rows: seq<Row>, lengths: seq<I64>)
    requires rows != [] && lengths != [] && LengthOf(rows[0]) == lengths[0]
    requires LengthsFit(rows[1..]) && Lengths(rows[1..]) == lengths[1..]
    ensures LengthsFit(rows) && Lengths(rows) == lengths && Data(crc, rows) == RowBytes(crc, rows[0]) + Data(crc, rows[1..])
  {
    hide LengthOf, RowBytes;
    LengthsTail(rows);
    assert lengths == [lengths[0]] + lengths[1..] && Lengths(rows) == [Lengths(rows)[0]] + Lengths(rows)[1..];
    assert forall i :: 1 <= i < |rows| ==> rows[i] == rows[1..][i - 1];
  }

  lemma SlotsStep(at: U64, lengths: seq<I64>, dataEnd: U64) returns (next: U64)
    requires SlotsFrom(at, lengths, dataEnd).Ok? && lengths != []
    ensures var n, slots := lengths[0], SlotsFrom(at, lengths, dataEnd).value;
      && ValidLength(n) && next == (if n >= 0 then at + n else at) <= dataEnd
      && slots != [] && SlotsFrom(next, lengths[1..], dataEnd) == Ok(slots[1..])
      && slots[0] == if n == -1 then NullSlot else if n == -2 then PlaceholderSlot else Payload(at + HEADER_SIZE, at + n - TRAILER_SIZE)
  {
    next := if lengths[0] >= 0 then at + lengths[0] else at;
    SlotsAccepted(at, lengths, dataEnd);
  }

  lemma RowsStep(crc: Checksum, file: seq<Byte>, slots: seq<Slot>, rows: seq<Row>)
    requires slots != [] && (forall i :: 0 <= i < |slots| ==> InFile(slots[i], |file|)) && ReadSlots(crc, file, slots) == Ok(rows)
    ensures rows != [] && InFile(slots[0], |file|) && ReadSlot(crc, file, slots[0]) == Ok(rows[0])
    ensures (forall i :: 0 <= i < |slots[1..]| ==> InFile(slots[1..][i], |file|)) && ReadSlots(crc, file, slots[1..]) == Ok(rows[1..])
  {
    hide ReadSlot, InFile;
  }

  lemma RowInRegion(crc: Checksum, file: seq<Byte>, at: nat, n: I64, slot: Slot, row: Row)
    requires ValidLength(n) && (n >= 0 ==> at + n <= |file|)
    requires slot == if n == -1 then NullSlot else if n == -2 then PlaceholderSlot else Payload(at + HEADER_SIZE, at + n - TRAILER_SIZE)
    requires InFile(slot, |file|) && ReadSlot(crc, file, slot) == Ok(row)
    ensures LengthOf(row) == n && RowBytes(crc, row) == if n >= 0 then file[at..at + n] else []
  {
    hide DecodeEntry, Entry;
    if n >= 0 {
      assert DecodeEntry(crc, file[at..at + n], at, at + n) == Ok(row.payload);
      DecodedIsEntry(crc, file[at..at + n], at, at + n, row.payload);
    }
  }

  /** A null before an entry of the greatest length: the file is written, and refused. */
  function HugeRows(): (rows: seq<Row>) { [Null, Value(seq(TWO_63 - 1 - ENTRY_OVERHEAD, _ => 0))] }

  lemma HugeEntryIsRefused(crc: Checksum)
    ensures FileOf(crc, HugeRows()).Some? && !DV.NeighboursFit(Lengths(HugeRows()))
    ensures ReadFile(crc, FileOf(crc, HugeRows()).value) == Err(BadIndex(DV.SumOverflow))
  {
    hide ReadFile, LoadSpec, Entry;
    var rows := HugeRows();
    var lengths := Lengths(rows);
    assert lengths == [-1, TWO_63 - 1];
    assert !FitsI64(lengths[1] - lengths[0]);
    DV.EncodedLength(0, lengths);
    assert rows[1..] == [rows[1]] && rows[1..][1..] == [];
    assert |Data(crc, rows)| == TWO_63 - 1;
    BlobRoundTrip(crc, rows);
  }

  /** Entry lengths up to 2^63 - 3 leave every difference in range, so such files
      always survive. */
  lemma OrdinaryRowsFit(rows: seq<Row>)
    requires forall i :: 0 <= i < |rows| && rows[i].Value? ==> |rows[i].payload| + ENTRY_OVERHEAD <= TWO_63 - 3
    ensures LengthsFit(rows) && DV.NeighboursFit(Lengths(rows))
  {
  }
}
