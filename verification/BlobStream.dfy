/** The Python blob stream: a file-like view of one window of a file, read by exact
range requests. `size` and `pos` are Python integers already narrowed to the native
width; a range request beyond the end of the file fails.
*/
module BlobStream {
  import opened Bytes
  import opened Options

  datatype Error = NegativeOffset | InvalidLength | Closed | ReadFailed | InvalidWhence | Overflow | NegativePosition

  datatype Result<+T> = Ok(value: T) | Err(error: Error)

  /** Everything but the file handle; the file is its bytes. */
  datatype Stream = Stream(file: seq<Byte>, offset: U64, length: Option<U64>, position: U64, closed: bool)

  function Open(file: seq<Byte>, offset: I64, length: I64): (r: Result<Stream>) {
    if offset < 0 then Err(NegativeOffset)
    else if length < -1 then Err(InvalidLength)
    else Ok(Stream(file, offset, if length >= 0 then Some(length) else None, 0, false))
  }

  function Min(a: int, b: int): (m: int) { if a < b then a else b }

  function SaturatingSub(a: nat, b: nat): (d: nat) { if a < b then 0 else a - b }

  function StreamLength(s: Stream): (n: nat)
    ensures |s.file| < TWO_64 ==> n < TWO_64
  {
    match s.length
    case Some(n) => n
    case None => SaturatingSub(|s.file|, s.offset)
  }

  /** The range a read asks for, if it asks at all. */
  function Request(s: Stream, size: int): (r: Option<(int, int)>) {
    var remaining := SaturatingSub(StreamLength(s), s.position);
    if remaining == 0 || size == 0 then None else
      var toRead := if size < 0 then remaining else Min(remaining, size);
      var start := s.offset + s.position;
      Some((start, start + toRead))
  }

  function ReadSpec(s: Stream, size: int): (r: (Stream, Result<seq<Byte>>))
    requires Sound(s)
  {
    if s.closed then (s, Err(Closed)) else
      match Request(s, size)
      case None => (s, Ok([]))
      case Some((start, end)) =>
        if end > |s.file| then (s, Err(ReadFailed))
        else (s.(position := s.position + (end - start)), Ok(s.file[start..end]))
  }

  function AsI64(u: U64): (i: I64) { if u < TWO_63 then u else u - TWO_64 }

  function SeekSpec(s: Stream, pos: I64, whence: int): (r: (Stream, Result<U64>))
    requires Sound(s)
  {
    if s.closed then (s, Err(Closed))
    else if whence != 0 && whence != 1 && whence != 2 then (s, Err(InvalidWhence))
    else
      var base: int := if whence == 0 then 0 else if whence == 1 then AsI64(s.position) else AsI64(StreamLength(s));
      var target := base + pos;
      if !FitsI64(target) then (s, Err(Overflow))
      else if target < 0 then (s, Err(NegativePosition))
      else (s.(position := target), Ok(target))
  }

  /** What opening and every operation keep, for files below 2^63 bytes. */
  predicate Sound(s: Stream) {
    && |s.file| < TWO_63 && s.offset < TWO_63 && s.position < TWO_63
    && (s.length.Some? ==> s.length.value < TWO_63)
  }

  /** Positions stay within i64, and neither end of a request overflows u64 or leaves
      the window. */
  lemma OperationsAreSound(s: Stream, size: int, pos: I64, whence: int)
    requires Sound(s)
    ensures Sound(ReadSpec(s, size).0) && Sound(SeekSpec(s, pos, whence).0)
    ensures Request(s, size).Some? ==>
              var (start, end) := Request(s, size).value;
              s.offset <= start < end <= s.offset + StreamLength(s) < TWO_64
  {
  }

  // ------------------------------------------------------- reference cursor

  /** A window of `declared` bytes, of which those that exist come first. */
  datatype Cursor = Cursor(window: seq<Byte>, declared: nat, pos: nat, closed: bool)

  datatype Call = Read(size: int) | Seek(pos: I64, whence: int) | Close

  datatype Answer = Bytes(bytes: seq<Byte>) | Position(at: int) | Done | Failed(error: Error)

  /** A plain cursor in unbounded integers: a read takes what is asked for and declared,
      and fails if a byte of that is missing. */
  function CursorStep(c: Cursor, call: Call): (r: (Cursor, Answer)) {
    match call
    case Read(size) =>
      if c.closed then (c, Failed(Closed)) else
        var from := Min(c.pos, c.declared);
        var to := if size < 0 then c.declared else Min(from + size, c.declared);
        if from < to && to > |c.window| then (c, Failed(ReadFailed))
        else (c.(pos := c.pos + (to - from)), Bytes(if from < to then c.window[from..to] else []))
    case Seek(pos, whence) =>
      if c.closed then (c, Failed(Closed))
      else if whence != 0 && whence != 1 && whence != 2 then (c, Failed(InvalidWhence))
      else
        var target := (if whence == 0 then 0 else if whence == 1 then c.pos else c.declared) + pos;
        if !FitsI64(target) then (c, Failed(Overflow))
        else if target < 0 then (c, Failed(NegativePosition))
        else (c.(pos := target), Position(target))
    case Close => (c.(closed := true), Done)
  }

  function StreamStep(s: Stream, call: Call): (r: (Stream, Answer))
    requires Sound(s)
  {
    match call
    case Read(size) =>
      (match ReadSpec(s, size).1
       case Ok(b) => (ReadSpec(s, size).0, Bytes(b))
       case Err(e) => (ReadSpec(s, size).0, Failed(e)))
    case Seek(pos, whence) =>
      (match SeekSpec(s, pos, whence).1
       case Ok(p) => (SeekSpec(s, pos, whence).0, Position(p))
       case Err(e) => (SeekSpec(s, pos, whence).0, Failed(e)))
    case Close => (s.(closed := true), Done)
  }

  /** The declared window lies within the file. */
  predicate Backed(s: Stream) { s.length.Some? ==> s.offset + s.length.value <= |s.file| }

  /** The bytes of the declared window that exist. */
  function Window(s: Stream): (w: seq<Byte>)
    ensures |w| <= StreamLength(s) && (Backed(s) ==> |w| == StreamLength(s))
  {
    s.file[Min(s.offset, |s.file|)..Min(s.offset + StreamLength(s), |s.file|)]
  }

  function CursorOf(s: Stream): (c: Cursor) { Cursor(Window(s), StreamLength(s), s.position, s.closed) }

  lemma ReadRefines(s: Stream, size: int)
    requires Sound(s)
    ensures Sound(ReadSpec(s, size).0)
    ensures (CursorOf(StreamStep(s, Read(size)).0), StreamStep(s, Read(size)).1) == CursorStep(CursorOf(s), Read(size))
  {
    OperationsAreSound(s, size, 0, 0);
    if !s.closed {
      match Request(s, size)
      case None =>
      case Some((start, end)) =>
        if end <= |s.file| {
          WindowSlice(s, start, end);
        }
    }
  }

  lemma WindowSlice(s: Stream, start: int, end: int)
    requires s.offset <= start <= end <= s.offset + StreamLength(s) && end <= |s.file|
    ensures end - s.offset <= |Window(s)| && s.file[start..end] == Window(s)[start - s.offset..end - s.offset]
  {
    var a, b := s.offset, Min(s.offset + StreamLength(s), |s.file|);
    var w := s.file[a..b];
    assert Window(s) == w;
    hide StreamLength, Window;
    var x, y := s.file[start..end], w[start - a..end - a];
    forall i | 0 <= i < end - start ensures x[i] == y[i] {
      assert y[i] == w[start - a + i] == s.file[start + i];
    }
  }

  lemma SeekRefines(s: Stream, pos: I64, whence: int)
    requires Sound(s)
    ensures Sound(SeekSpec(s, pos, whence).0)
    ensures (CursorOf(StreamStep(s, Seek(pos, whence)).0), StreamStep(s, Seek(pos, whence)).1) == CursorStep(CursorOf(s), Seek(pos, whence))
  {
    OperationsAreSound(s, 0, pos, whence);
  }

  function RunCursor(c: Cursor, calls: seq<Call>): (r: (Cursor, seq<Answer>))
    decreases |calls|
  {
    if calls == [] then (c, []) else
      var (c', a) := CursorStep(c, calls[0]);
      var (c'', rest) := RunCursor(c', calls[1..]);
      (c'', [a] + rest)
  }

  function RunStream(s: Stream, calls: seq<Call>): (r: (Stream, seq<Answer>))
    requires Sound(s)
    decreases |calls|
  {
    if calls == [] then (s, []) else
      StepRefines(s, calls[0]);
      var (s', a) := StreamStep(s, calls[0]);
      var (s'', rest) := RunStream(s', calls[1..]);
      (s'', [a] + rest)
  }

  lemma StepRefines(s: Stream, call: Call)
    requires Sound(s)
    ensures Sound(StreamStep(s, call).0)
    ensures (CursorOf(StreamStep(s, call).0), StreamStep(s, call).1) == CursorStep(CursorOf(s), call)
  {
    match call
    case Read(size) => ReadRefines(s, size);
    case Seek(pos, whence) => SeekRefines(s, pos, whence);
    case Close =>
  }

  /** For every sequence of reads, seeks and closes the stream answers as a plain cursor
      over the window does: same bytes, same positions, same errors. */
  lemma {:induction false} StreamIsACursor(s: Stream, calls: seq<Call>)
    requires Sound(s)
    ensures Sound(RunStream(s, calls).0)
    ensures (CursorOf(RunStream(s, calls).0), RunStream(s, calls).1) == RunCursor(CursorOf(s), calls)
    decreases |calls|
  {
    hide StreamStep, CursorStep, CursorOf, Sound;
    if calls != [] {
      StepRefines(s, calls[0]);
      StreamIsACursor(StreamStep(s, calls[0]).0, calls[1..]);
    }
  }

  // ------------------------------------------------------ reading it through

  function Gathered(answers: seq<Answer>): (b: seq<Byte>) {
    if answers == [] then [] else (if answers[0].Bytes? then answers[0].bytes else []) + Gathered(answers[1..])
  }

  function Total(sizes: seq<int>): (n: int) { if sizes == [] then 0 else sizes[0] + Total(sizes[1..]) }

  function Reads(sizes: seq<int>): (calls: seq<Call>)
    ensures |calls| == |sizes| && forall i :: 0 <= i < |sizes| ==> calls[i] == Read(sizes[i])
  {
    seq(|sizes|, i requires 0 <= i < |sizes| => Read(sizes[i]))
  }

  lemma {:induction false} ReadsGather(c: Cursor, sizes: seq<int>)
    requires !c.closed && c.pos <= |c.window| == c.declared && forall i :: 0 <= i < |sizes| ==> sizes[i] > 0
    ensures Total(sizes) >= 0
    ensures Gathered(RunCursor(c, Reads(sizes)).1) == c.window[c.pos..Min(|c.window|, c.pos + Total(sizes))]
    decreases |sizes|
  {
    hide RunCursor, Gathered, CursorStep;
    if sizes == [] {
      GatherNone(c, Reads(sizes));
    } else {
      assert Reads(sizes)[1..] == Reads(sizes[1..]);
      ReadOne(c, sizes[0]);
      GatherOne(c, Reads(sizes));
      ReadsGather(CursorStep(c, Read(sizes[0])).0, sizes[1..]);
      var mid, end := Min(|c.window|, c.pos + sizes[0]), Min(|c.window|, c.pos + Total(sizes));
      assert c.window[c.pos..mid] + c.window[mid..end] == c.window[c.pos..end];
    }
  }

  lemma GatherNone(c: Cursor, calls: seq<Call>)
    requires calls == []
    ensures Gathered(RunCursor(c, calls).1) == []
  {
  }

  lemma ReadOne(c: Cursor, size: int)
    requires !c.closed && c.pos <= |c.window| == c.declared && size > 0
    ensures CursorStep(c, Read(size)) ==
            (c.(pos := Min(|c.window|, c.pos + size)), Bytes(c.window[c.pos..Min(|c.window|, c.pos + size)]))
  {
    assert c.window[c.pos..c.pos] == [];
  }

  lemma GatherOne(c: Cursor, calls: seq<Call>)
    requires calls != [] && CursorStep(c, calls[0]).1.Bytes?
    ensures Gathered(RunCursor(c, calls).1) ==
            CursorStep(c, calls[0]).1.bytes + Gathered(RunCursor(CursorStep(c, calls[0]).0, calls[1..]).1)
  {
    var (c', a) := CursorStep(c, calls[0]);
    var rest := RunCursor(c', calls[1..]).1;
    assert ([a] + rest)[1..] == rest;
  }

  /** Reads of any positive sizes from the start, long enough in all, concatenate to
      the whole window. */
  lemma ReadsCoverTheWindow(s: Stream, sizes: seq<int>)
    requires Sound(s) && Backed(s) && !s.closed && s.position == 0
    requires (forall i :: 0 <= i < |sizes| ==> sizes[i] > 0) && Total(sizes) >= StreamLength(s)
    ensures Gathered(RunStream(s, Reads(sizes)).1) == Window(s)
  {
    StreamIsACursor(s, Reads(sizes));
    ReadsGather(CursorOf(s), sizes);
  }

  /** Opening a descriptor gives the window its two numbers name, and one unsized read
      returns all of it. A length of -1 means up to the end of the file. */
  lemma OpenedStream(file: seq<Byte>, offset: I64, length: I64)
    requires |file| < TWO_63
    ensures Open(file, offset, length).Ok? <==> offset >= 0 && length >= -1
    ensures offset >= 0 && length >= -1 ==>
              var s := Open(file, offset, length).value;
              && Sound(s)
              && (Backed(s) <==> length == -1 || offset + length <= |file|)
              && (Backed(s) ==>
                    && Window(s) == (if length == -1 then file[Min(offset, |file|)..] else file[offset..offset + length])
                    && ReadSpec(s, -1).1 == Ok(Window(s)))
  {
    if offset >= 0 && length >= -1 {
      var s := Open(file, offset, length).value;
      if Backed(s) {
        assert Window(s) == if length == -1 then file[Min(offset, |file|)..] else file[offset..offset + length];
        ReadRefines(s, -1);
        assert Window(s)[0..|Window(s)|] == Window(s);
      }
    }
  }

  /** When the declared window runs past the file, exactly the reads whose last byte is
      missing fail, and they leave the position alone. */
  lemma ReadFailsPastTheFile(s: Stream, size: int)
    requires Sound(s) && !s.closed
    ensures ReadSpec(s, size).1 == Err(ReadFailed) <==>
            && s.position < StreamLength(s) && size != 0
            && s.offset + (if size < 0 then StreamLength(s) else Min(StreamLength(s), s.position + size)) > |s.file|
    ensures ReadSpec(s, size).1.Err? ==> ReadSpec(s, size).0 == s
  {
  }

  // --------------------------------------------------------------- the class

  class BlobInputStream {
    const file: seq<Byte>
    const offset: U64
    const length: Option<U64>
    var position: U64
    var closed: bool

    function Abs(): (s: Stream)
      reads this
    {
      Stream(file, offset, length, position, closed)
    }

    constructor (s: Stream)
      requires Sound(s)
      ensures Abs() == s
    {
      file, offset, length, position, closed := s.file, s.offset, s.length, s.position, s.closed;
    }

    method ReadBytes(size: int) returns (r: Result<seq<Byte>>)
      requires Sound(Abs())
      modifies this`position
      ensures (Abs(), r) == ReadSpec(old(Abs()), size) && Sound(Abs())
    {
      if closed { return Err(Closed); }
      var streamLength := if length.Some? then length.value else SaturatingSub(|file|, offset);
      var remaining := SaturatingSub(streamLength, position);
      if remaining == 0 || size == 0 { return Ok([]); }
      var toRead := if size < 0 then remaining else Min(remaining, size);
      var start: U64 := offset + position;
      var end: U64 := start + toRead;
      if end > |file| { return Err(ReadFailed); }
      var bytes := file[start..end];
      position := position + |bytes|;
      r := Ok(bytes);
    }

    method SeekTo(pos: I64, whence: int) returns (r: Result<U64>)
      requires Sound(Abs())
      modifies this`position
      ensures (Abs(), r) == SeekSpec(old(Abs()), pos, whence) && Sound(Abs())
    {
      if closed { return Err(Closed); }
      var base: int;
      if whence == 0 {
        base := 0;
      } else if whence == 1 {
        base := AsI64(position);
      } else if whence == 2 {
        base := AsI64(if length.Some? then length.value else SaturatingSub(|file|, offset));
      } else {
        return Err(InvalidWhence);
      }
      var target := base + pos;
      if !FitsI64(target) { return Err(Overflow); }
      if target < 0 { return Err(NegativePosition); }
      position := target;
      r := Ok(position);
    }

    method Close()
      modifies this`closed
      ensures closed && Abs() == old(Abs()).(closed := true)
    {
      closed := true;
    }
  }
}
