/** The ranged read of the OSS bridge: one request, any number of transfer attempts, each
with a sink of its own over the caller's buffer, and a check of the final response.

The service is not part of the program. What is taken from sections 14.4 and 15.3.7 of
RFC 9110 is `Honest`: the body of a 206 response is the part of the object that its
Content-Range header names. Failed attempts may have written anything.
*/
module OssRead {
  import opened Bytes
  import opened Decimal
  import opened Options

  /** What the client library returns once it stops retrying. */
  datatype Outcome =
    | SdkFailure
    | Response(status: int, contentRange: string, contentLength: I64, body: seq<Byte>)

  datatype Result = Ok | InvalidRange | Failed | InvalidRangeResponse

  /** The chunks one attempt hands to its sink, in order. */
  type Attempt = seq<seq<Byte>>

  function Concat(chunks: Attempt): (b: seq<Byte>) {
    if chunks == [] then [] else chunks[0] + Concat(chunks[1..])
  }

  lemma {:induction false} ConcatSnoc(chunks: Attempt, i: nat)
    requires i < |chunks|
    ensures Concat(chunks[..i + 1]) == Concat(chunks[..i]) + chunks[i]
  {
    if i == 0 {
      assert chunks[..1] == [chunks[0]] && chunks[..0] == [];
      assert Concat([chunks[0]]) == chunks[0] + Concat([chunks[0]][1..]);
    } else {
      ConcatSnoc(chunks[1..], i - 1);
      assert chunks[..i + 1][1..] == chunks[1..][..i] && chunks[..i][1..] == chunks[1..][..i - 1];
    }
  }

  // ------------------------------------------------------------ the headers

  const UNIT: string := "bytes "

  function Prefix(first: nat, last: nat): (s: string) {
    UNIT + Print(first) + "-" + Print(last) + "/"
  }

  predicate StartsWith(s: string, p: string) { |p| <= |s| && s[..|p|] == p }

  /** Reads `bytes first-last/...`, the form of section 14.4 of RFC 9110 for a range
      that is satisfied; leading zeros are allowed there. */
  function ParseContentRange(s: string): (r: Option<(nat, nat)>) {
    if !StartsWith(s, UNIT) then None else
      match ParseNumber(s[|UNIT|..], '-')
      case None => None
      case Some((first, rest)) =>
        match ParseNumber(rest, '/')
        case None => None
        case Some((last, _)) => Some((first, last))
  }

  /** A run of digits closed by `sep`, and the text after it. */
  function ParseNumber(s: string, sep: char): (r: Option<(nat, string)>) {
    var k := DigitCount(s);
    if k == 0 || k == |s| || s[k] != sep then None else Some((Value(s[..k]), s[k + 1..]))
  }

  lemma NumberRoundTrip(n: nat, sep: char, rest: string)
    requires !IsDigit(sep)
    ensures ParseNumber(Print(n) + [sep] + rest, sep) == Some((n, rest))
  {
    hide Value, Print, DigitCount;
    var digits := Print(n);
    var s := digits + [sep] + rest;
    DigitsEnd(digits, sep, rest);
    assert s[..|digits|] == digits && s[|digits| + 1..] == rest;
    PrintRoundTrip(n);
  }

  /** The prefix test accepts only headers that name exactly this range. */
  lemma PrefixNamesTheRange(s: string, first: nat, last: nat)
    requires StartsWith(s, Prefix(first, last))
    ensures ParseContentRange(s) == Some((first, last))
  {
    hide Print, ParseNumber;
    var p := Prefix(first, last);
    var tail := s[|p|..];
    var after := Print(last) + ['/'] + tail;
    assert s == p + tail;
    assert s == UNIT + (Print(first) + ['-'] + after);
    assert s[..|UNIT|] == UNIT && s[|UNIT|..] == Print(first) + ['-'] + after;
    NumberRoundTrip(first, '-', after);
    NumberRoundTrip(last, '/', tail);
  }

  /** So no header passes the test for two different ranges. */
  lemma PrefixIsUnambiguous(s: string, first: nat, last: nat, first': nat, last': nat)
    requires StartsWith(s, Prefix(first, last)) && StartsWith(s, Prefix(first', last'))
    ensures first == first' && last == last'
  {
    PrefixNamesTheRange(s, first, last);
    PrefixNamesTheRange(s, first', last');
  }

  // ----------------------------------------------------------- the protocol

  predicate Honest(o: Outcome, stored: seq<Byte>) {
    o.Response? && o.status == 206 && ParseContentRange(o.contentRange).Some? ==>
      var (first, last) := ParseContentRange(o.contentRange).value;
      first <= last < |stored| && o.body == stored[first..last + 1]
  }

  /** The last attempt received the response's body, perhaps cut short. */
  predicate DeliveredBy(o: Outcome, attempts: seq<Attempt>) {
    o.Response? && attempts != [] ==> Concat(attempts[|attempts| - 1]) <= o.body
  }

  /** The guard as written, with no step that overflows. */
  predicate RangeFits(offset: U64, length: U64) { length == 0 || offset <= TWO_64 - 1 - (length - 1) }

  function Overlay(buffer: seq<Byte>, bytes: seq<Byte>): (r: seq<Byte>)
    requires |bytes| <= |buffer|
  {
    bytes + buffer[|bytes|..]
  }

  function Written(attempt: Attempt, length: nat): (b: seq<Byte>)
    ensures |b| <= length && b <= Concat(attempt)
  {
    var all := Concat(attempt);
    if |all| <= length then all else all[..length]
  }

  /** A sink over the first `capacity` bytes of a buffer, starting at the beginning. */
  class MemoryWriter {
    const buffer: array<Byte>
    const capacity: nat
    var written: nat

    constructor (buffer: array<Byte>, capacity: nat)
      requires capacity <= buffer.Length
      ensures this.buffer == buffer && this.capacity == capacity && written == 0
    {
      this.buffer, this.capacity, written := buffer, capacity, 0;
    }

    method Write(chunk: seq<Byte>)
      requires written <= capacity <= buffer.Length
      modifies this`written, buffer
      ensures written == (if old(written) + |chunk| <= capacity then old(written) + |chunk| else capacity)
      ensures written - old(written) <= |chunk|
      ensures buffer[..] == Spliced(old(buffer[..]), old(written), chunk, written - old(written))
    {
      hide Spliced;
      var take := if written + |chunk| <= capacity then |chunk| else capacity - written;
      ghost var before := buffer[..];
      SplicedNothing(before, written, chunk);
      for i := 0 to take
        invariant written == old(written)
        invariant buffer[..] == Spliced(before, written, chunk, i)
      {
        ghost var now := buffer[..];
        buffer[written + i] := chunk[i];
        assert buffer[..] == now[written + i := chunk[i]];
        SplicedMore(before, written, chunk, i);
      }
      written := written + take;
    }
  }

  /** `before` with the first `n` bytes of `chunk` written at `at`. */
  function Spliced(before: seq<Byte>, at: nat, chunk: seq<Byte>, n: nat): (s: seq<Byte>)
    requires n <= |chunk| && at + n <= |before|
    ensures |s| == |before|
  {
    before[..at] + chunk[..n] + before[at + n..]
  }

  lemma SplicedNothing(before: seq<Byte>, at: nat, chunk: seq<Byte>)
    requires at <= |before|
    ensures Spliced(before, at, chunk, 0) == before
  {
  }

  lemma SplicedMore(before: seq<Byte>, at: nat, chunk: seq<Byte>, n: nat)
    requires n < |chunk| && at + n < |before|
    ensures Spliced(before, at, chunk, n)[at + n := chunk[n]] == Spliced(before, at, chunk, n + 1)
  {
  }

  /** One attempt: a fresh sink, then every chunk. */
  method Transfer(buffer: array<Byte>, length: nat, attempt: Attempt) returns (sink: MemoryWriter)
    requires length <= buffer.Length
    modifies buffer
    ensures fresh(sink)
    ensures sink.written == |Written(attempt, length)|
    ensures buffer[..] == Overlay(old(buffer[..]), Written(attempt, length))
  {
    hide Written, Overlay;
    sink := new MemoryWriter(buffer, length);
    ghost var before := buffer[..];
    WriteNothing(before, length);
    assert attempt[..0] == [];
    for i := 0 to |attempt|
      invariant fresh(sink) && sink.buffer == buffer && sink.capacity == length
      invariant sink.written == |Written(attempt[..i], length)| <= length
      invariant buffer[..] == Overlay(before, Written(attempt[..i], length))
    {
      assert attempt[..i + 1] == attempt[..i] + [attempt[i]];
      ConcatSnoc(attempt, i);
      WriteMore(before, attempt[..i], attempt[i], length);
      sink.Write(attempt[i]);
    }
    assert attempt[..|attempt|] == attempt;
  }

  lemma WriteNothing(before: seq<Byte>, length: nat)
    ensures Written([], length) == [] && Overlay(before, []) == before
  {
  }

  lemma WriteMore(before: seq<Byte>, attempt: Attempt, chunk: seq<Byte>, length: nat)
    requires length <= |before| && Concat(attempt + [chunk]) == Concat(attempt) + chunk
    ensures var w := Written(attempt, length);
            var w' := Written(attempt + [chunk], length);
            && |w'| == (if |w| + |chunk| <= length then |w| + |chunk| else length)
            && |w| <= |w'| && |w'| - |w| <= |chunk|
            && Overlay(before, w') == Spliced(Overlay(before, w), |w|, chunk, |w'| - |w|)
  {
    var w, w' := Written(attempt, length), Written(attempt + [chunk], length);
    assert w' == w + chunk[..|w'| - |w|];
    assert before[|w|..][|w'| - |w|..] == before[|w'|..];
  }

  /** The read. `attempts` are the transfers the client library made, `outcome` what it
      returned afterwards. */
  method Read(offset: U64, length: U64, buffer: array<Byte>, attempts: seq<Attempt>, outcome: Outcome)
    returns (r: Result)
    requires length <= buffer.Length
    modifies buffer
    ensures length > 0 ==> (r == InvalidRange <==> (offset as int) + length > TWO_64)
    ensures length == 0 || r == InvalidRange ==> buffer[..] == old(buffer[..])
    ensures buffer[length..] == old(buffer[length..])
    ensures r == Ok <==> length == 0 || (RangeFits(offset, length) && Accepted(offset, length, attempts, outcome))
    ensures r == Failed <==> length > 0 && RangeFits(offset, length) && outcome.SdkFailure?
    ensures r == Ok && DeliveredBy(outcome, attempts) && length > 0 ==> buffer[..length] == outcome.body[..length]
  {
    if length == 0 { return Ok; }
    if offset > TWO_64 - 1 - (length - 1) { return InvalidRange; }
    ghost var before := buffer[..];
    var sink: MemoryWriter? := null;
    for i := 0 to |attempts|
      invariant sink == null <==> i == 0
      invariant i > 0 ==> sink.written == |Written(attempts[i - 1], length)|
      invariant i > 0 ==> buffer[..sink.written] == Written(attempts[i - 1], length)
      invariant buffer[length..] == before[length..]
    {
      sink := Transfer(buffer, length, attempts[i]);
    }
    var end := (offset as int) + length - 1;
    if outcome.SdkFailure? { return Failed; }
    if || outcome.status != 206
       || !StartsWith(outcome.contentRange, Prefix(offset, end))
       || outcome.contentLength != WrapI64(length)
       || sink == null || sink.written != length
    {
      return InvalidRangeResponse;
    }
    r := Ok;
  }

  predicate Accepted(offset: U64, length: U64, attempts: seq<Attempt>, o: Outcome)
    requires length > 0
  {
    && o.Response? && o.status == 206
    && StartsWith(o.contentRange, Prefix(offset, (offset as int) + length - 1))
    && o.contentLength == WrapI64(length)
    && attempts != [] && |Concat(attempts[|attempts| - 1])| >= length
  }

  /** An accepted response is a partial one that names exactly the range asked for, claims
      its length, and whose last transfer brought that many bytes. */
  lemma AcceptedMeans(offset: U64, length: U64, attempts: seq<Attempt>, o: Outcome)
    requires length > 0 && Accepted(offset, length, attempts, o)
    ensures o.Response? && o.status == 206 && ParseContentRange(o.contentRange) == Some((offset, (offset as int) + length - 1))
    ensures (o.contentLength - length) % TWO_64 == 0 && (length < TWO_63 ==> o.contentLength == length)
    ensures attempts != [] && |Concat(attempts[|attempts| - 1])| >= length
  {
    hide ParseContentRange, Prefix;
    PrefixNamesTheRange(o.contentRange, offset, (offset as int) + length - 1);
  }

  /** Success means the caller's buffer holds the requested bytes of the object, whatever
      earlier attempts left in it. */
  method ReadObject(stored: seq<Byte>, offset: U64, length: U64, buffer: array<Byte>, attempts: seq<Attempt>, outcome: Outcome)
    returns (r: Result)
    requires length <= buffer.Length && Honest(outcome, stored) && DeliveredBy(outcome, attempts)
    modifies buffer
    ensures r == Ok && length > 0 ==>
              (offset as int) + length <= |stored| && buffer[..length] == stored[offset..(offset as int) + length]
    ensures buffer[length..] == old(buffer[length..])
  {
    r := Read(offset, length, buffer, attempts, outcome);
    if r == Ok && length > 0 {
      PrefixNamesTheRange(outcome.contentRange, offset, (offset as int) + length - 1);
      assert outcome.body == stored[offset..(offset as int) + length];
      assert outcome.body[..length] == outcome.body;
    }
  }
}
