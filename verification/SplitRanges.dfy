/** Reading chosen splits of a plan: the indices are sorted and grouped into
contiguous ranges, each range becomes one native reader over a clamped slice of the
plan, and the readers are drained one after another.

`items(k)` is what reading split `k` yields, in order: batches and failures. A native
reader over a slice yields its splits in order.
*/
module SplitRanges {
  import Sorting

  datatype Range = Range(offset: nat, length: nat)

  datatype Item = Batch(id: nat) | Failure

  datatype Next = Got(item: Item) | EndOfStream | Closed

  // ---------------------------------------------------------------- sorting

  predicate Ascending(s: seq<nat>) { forall i, j :: 0 <= i < j < |s| ==> s[i] <= s[j] }

  predicate StrictlyAscending(s: seq<nat>) { forall i, j :: 0 <= i < j < |s| ==> s[i] < s[j] }

  predicate AtMost(a: nat, b: nat) { a <= b }

  function Sort(s: seq<nat>): (r: seq<nat>) { Sorting.Sort(s, AtMost) }

  lemma SortSorts(s: seq<nat>)
    ensures Ascending(Sort(s)) && multiset(Sort(s)) == multiset(s) && |Sort(s)| == |s|
  {
    Sorting.SortSorts(s, AtMost);
    var r := Sort(s);
    forall i, j | 0 <= i < j < |r| ensures r[i] <= r[j] {
      assert AtMost(r[i], r[j]);
    }
  }

  /** `sort.Ints`, in place. */
  method SortInts(a: array<nat>)
    modifies a
    ensures a[..] == Sort(old(a[..]))
  {
    ghost var s := a[..];
    var i := a.Length;
    while i > 0
      invariant 0 <= i <= a.Length
      invariant a[..i] == s[..i] && a[i..] == Sort(s[i..])
    {
      i := i - 1;
      assert s[i..][1..] == s[i + 1..] && a[..i + 1][i] == s[i];
      InsertInPlace(a, i);
      assert a[..i] == s[..i];
    }
    assert a[..] == a[0..] && s[0..] == s;
  }

  /** Moves `a[i]` right past the smaller elements of the sorted rest. */
  method InsertInPlace(a: array<nat>, i: nat)
    requires i < a.Length
    modifies a
    ensures a[..i] == old(a[..i]) && a[i..] == Sorting.Insert(old(a[i + 1..]), old(a[i]), AtMost)
  {
    hide Sorting.Insert;
    var x, j := a[i], i;
    ghost var done, tail := [], a[i + 1..];
    ghost var goal := Sorting.Insert(tail, x, AtMost);
    while j + 1 < a.Length && a[j + 1] < x
      invariant i <= j < a.Length && a[..][..i] == old(a[..i])
      invariant a[..][i..j] == done && a[..][j + 1..] == tail
      invariant done + Sorting.Insert(tail, x, AtMost) == goal
    {
      ghost var b := a[..];
      Shifted(b, i, j);
      assert b[j + 1..] == tail && b[i..j] == done;
      InsertPast(done, tail, x);
      a[j] := a[j + 1];
      assert a[..] == b[j := b[j + 1]];
      j := j + 1;
      done, tail := done + [tail[0]], tail[1..];
    }
    ghost var b := a[..];
    Settled(b, i, j, x);
    InsertHere(tail, x);
    a[j] := x;
    assert a[..] == b[j := x];
    assert a[i..] == a[..][i..] && a[..i] == a[..][..i];
  }

  lemma Settled(b: seq<nat>, i: nat, j: nat, x: nat)
    requires i <= j < |b|
    ensures b[j := x][..i] == b[..i] && b[j := x][i..] == b[i..j] + ([x] + b[j + 1..])
    ensures b[j + 1..] != [] ==> j + 1 < |b| && b[j + 1..][0] == b[j + 1]
  {
  }

  /** Copying an element one place to the left, seen from both sides. */
  lemma Shifted(b: seq<nat>, i: nat, j: nat)
    requires i <= j && j + 1 < |b|
    ensures var b' := b[j := b[j + 1]];
      && b'[..i] == b[..i] && b'[i..j + 1] == b[i..j] + [b[j + 1]]
      && b[j + 1..] != [] && b[j + 1..][0] == b[j + 1] && b'[j + 2..] == b[j + 1..][1..]
  {
  }

  lemma InsertPast(done: seq<nat>, tail: seq<nat>, x: nat)
    requires tail != [] && tail[0] < x
    ensures done + Sorting.Insert(tail, x, AtMost) == done + [tail[0]] + Sorting.Insert(tail[1..], x, AtMost)
  {
    assert !AtMost(x, tail[0]);
  }

  lemma InsertHere(tail: seq<nat>, x: nat)
    requires tail == [] || x <= tail[0]
    ensures Sorting.Insert(tail, x, AtMost) == [x] + tail
  {
    assert tail != [] ==> AtMost(x, tail[0]);
  }

  // --------------------------------------------------------------- grouping

  /** The grouping loop with ranges so far and the one being extended. */
  function GroupFrom(last: Range, rest: seq<nat>): (r: seq<Range>)
    ensures |r| > 0 && r[0].offset == last.offset
    decreases |rest|
  {
    if rest == [] then [last]
    else if rest[0] == last.offset + last.length then GroupFrom(Range(last.offset, last.length + 1), rest[1..])
    else [last] + GroupFrom(Range(rest[0], 1), rest[1..])
  }

  function Group(indices: seq<nat>): (r: seq<Range>)
    requires indices != []
  {
    GroupFrom(Range(indices[0], 1), indices[1..])
  }

  method GroupIndices(indices: seq<nat>) returns (ranges: seq<Range>)
    requires indices != []
    ensures ranges == Group(indices)
  {
    ranges := [Range(indices[0], 1)];
    for i := 1 to |indices|
      invariant |ranges| > 0
      invariant Group(indices) == ranges[..|ranges| - 1] + GroupFrom(ranges[|ranges| - 1], indices[i..])
    {
      var idx := indices[i];
      var last := ranges[|ranges| - 1];
      ghost var done := ranges[..|ranges| - 1];
      assert indices[i..][1..] == indices[i + 1..];
      if idx == last.offset + last.length {
        ranges := ranges[|ranges| - 1 := Range(last.offset, last.length + 1)];
        assert ranges[..|ranges| - 1] == done;
      } else {
        ranges := ranges + [Range(idx, 1)];
        assert ranges[..|ranges| - 1] == done + [last];
        assert done + ([last] + GroupFrom(Range(idx, 1), indices[i + 1..])) == done + [last] + GroupFrom(Range(idx, 1), indices[i + 1..]);
      }
    }
    assert indices[|indices|..] == [];
    assert ranges == ranges[..|ranges| - 1] + [ranges[|ranges| - 1]];
  }

  function Indices(r: Range): (s: seq<nat>)
    ensures |s| == r.length && forall i :: 0 <= i < r.length ==> s[i] == r.offset + i
  {
    seq(r.length, i requires 0 <= i => r.offset + i)
  }

  function Flatten(ranges: seq<Range>): (s: seq<nat>) {
    if ranges == [] then [] else Indices(ranges[0]) + Flatten(ranges[1..])
  }

  /** Grouping loses, adds and reorders nothing, duplicates included. */
  lemma {:induction false} FlattenGroupFrom(last: Range, rest: seq<nat>)
    ensures Flatten(GroupFrom(last, rest)) == Indices(last) + rest
    decreases |rest|
  {
    if rest == [] {
      assert [last][1..] == [];
      assert Indices(last) + [] == Indices(last);
    } else {
      assert rest == [rest[0]] + rest[1..];
      if rest[0] == last.offset + last.length {
        FlattenGroupFrom(Range(last.offset, last.length + 1), rest[1..]);
        assert Indices(Range(last.offset, last.length + 1)) == Indices(last) + [rest[0]];
      } else {
        FlattenGroupFrom(Range(rest[0], 1), rest[1..]);
        assert Indices(Range(rest[0], 1)) == [rest[0]];
        var more := GroupFrom(Range(rest[0], 1), rest[1..]);
        assert ([last] + more)[1..] == more;
      }
    }
  }

  lemma FlattenGroup(indices: seq<nat>)
    requires indices != []
    ensures Flatten(Group(indices)) == indices
  {
    FlattenGroupFrom(Range(indices[0], 1), indices[1..]);
    assert Indices(Range(indices[0], 1)) == [indices[0]];
  }

  /** Native slice bounds: both ends cut to the number of splits. */
  function Clamp(r: Range, n: nat): (c: (nat, nat))
    ensures c.0 <= c.1 <= n
  {
    var end := r.offset + r.length;
    (if r.offset < n then r.offset else n, if end < n then end else n)
  }

  /** It keeps exactly the indices of the range that the plan has. */
  lemma ClampKeeps(r: Range, n: nat, x: nat)
    ensures Clamp(r, n).0 <= x < Clamp(r, n).1 <==> r.offset <= x < r.offset + r.length && x < n
  {
  }

  lemma {:induction false} GroupedFits(last: Range, rest: seq<nat>, n: nat, k: nat)
    requires last.offset + last.length <= n && (forall i :: 0 <= i < |rest| ==> rest[i] < n)
    requires k < |GroupFrom(last, rest)| && last.length > 0
    ensures var r := GroupFrom(last, rest)[k]; r.length > 0 && r.offset + r.length <= n
    decreases |rest|
  {
    if rest != [] {
      assert forall i :: 0 <= i < |rest[1..]| ==> rest[1..][i] == rest[i + 1];
      if rest[0] == last.offset + last.length {
        GroupedFits(Range(last.offset, last.length + 1), rest[1..], n, k);
      } else if k > 0 {
        GroupedFits(Range(rest[0], 1), rest[1..], n, k - 1);
      }
    }
  }

  /** Indices of the plan give ranges inside it, so the native clamp changes nothing. */
  lemma ClampIsIdentity(indices: seq<nat>, n: nat, k: nat)
    requires indices != [] && (forall i :: 0 <= i < |indices| ==> indices[i] < n) && k < |Group(indices)|
    ensures var r := Group(indices)[k]; r.length > 0 && Clamp(r, n) == (r.offset, r.offset + r.length)
  {
    assert forall i :: 0 <= i < |indices[1..]| ==> indices[1..][i] == indices[i + 1];
    GroupedFits(Range(indices[0], 1), indices[1..], n, k);
  }

  /** Ranges with a gap after each of them: nothing more could have been joined. */
  predicate Gapped(ranges: seq<Range>) {
    forall k :: 0 < k < |ranges| ==> ranges[k - 1].offset + ranges[k - 1].length < ranges[k].offset
  }

  lemma GappedCons(r: Range, more: seq<Range>)
    requires more != []
    ensures Gapped([r] + more) <==> r.offset + r.length < more[0].offset && Gapped(more)
  {
    var all := [r] + more;
    if Gapped(all) {
      assert all[1] == more[0] && all[0] == r;
      forall k | 0 < k < |more| ensures more[k - 1].offset + more[k - 1].length < more[k].offset {
        assert all[k + 1] == more[k] && all[k] == more[k - 1];
      }
    }
  }

  lemma {:induction false} GappedFrom(last: Range, rest: seq<nat>)
    requires Ascending(rest) && last.length > 0 && (rest != [] ==> last.offset + last.length - 1 <= rest[0])
    ensures Gapped(GroupFrom(last, rest)) <==> StrictlyAscending([last.offset + last.length - 1] + rest)
    decreases |rest|
  {
    hide Gapped, StrictlyAscending;
    var top := last.offset + last.length - 1;
    Singletons(last, top);
    if rest == [] {
      assert [top] + rest == [top];
    } else {
      var tail := rest[1..];
      assert forall i :: 0 <= i < |tail| ==> tail[i] == rest[i + 1];
      StrictCons(top, rest);
      assert rest == [rest[0]] + tail;
      if rest[0] == top + 1 {
        GappedFrom(Range(last.offset, last.length + 1), tail);
      } else {
        GappedFrom(Range(rest[0], 1), tail);
        GappedCons(last, GroupFrom(Range(rest[0], 1), tail));
      }
    }
  }

  lemma Singletons(r: Range, x: nat)
    ensures Gapped([r]) && StrictlyAscending([x])
  {
  }

  lemma StrictCons(x: nat, s: seq<nat>)
    requires s != [] && Ascending(s)
    ensures StrictlyAscending([x] + s) <==> x < s[0] && StrictlyAscending(s)
  {
    var all := [x] + s;
    if StrictlyAscending(all) {
      assert all[0] < all[1];
      forall i, j | 0 <= i < j < |s| ensures s[i] < s[j] { assert all[i + 1] < all[j + 1]; }
    }
  }

  /** On sorted indices the ranges are as long as they can be exactly when no index
      is repeated. */
  lemma MaximalIffDistinct(indices: seq<nat>)
    requires indices != [] && Ascending(indices)
    ensures Gapped(Group(indices)) <==> StrictlyAscending(indices)
  {
    assert indices == [indices[0]] + indices[1..];
    GappedFrom(Range(indices[0], 1), indices[1..]);
  }

  // ---------------------------------------------------------------- reading

  /** Repeating an index splits a range that could have been one. */
  lemma RepeatedIndex()
    ensures Group([0, 0]) == [Range(0, 1), Range(0, 1)] && !Gapped(Group([0, 0]))
  {
    var indices: seq<nat> := [0, 0];
    assert indices[1..] == [0] && indices[1..][1..] == [];
    var ranges := Group(indices);
    assert ranges == [Range(0, 1), Range(0, 1)];
    assert ranges[0].offset + ranges[0].length >= ranges[1].offset;
  }

  /** What reading these splits one by one yields. */
  function ReadEach(items: nat -> seq<Item>, splits: seq<nat>): (s: seq<Item>) {
    if splits == [] then [] else items(splits[0]) + ReadEach(items, splits[1..])
  }

  lemma {:induction false} ReadEachAppend(items: nat -> seq<Item>, a: seq<nat>, b: seq<nat>)
    ensures ReadEach(items, a + b) == ReadEach(items, a) + ReadEach(items, b)
  {
    if a == [] {
      assert a + b == b;
    } else {
      ReadEachAppend(items, a[1..], b);
      assert (a + b)[1..] == a[1..] + b;
      assert ReadEach(items, a + b) == items(a[0]) + (ReadEach(items, a[1..]) + ReadEach(items, b));
    }
  }

  /** How many items come before split `k` of the list. */
  function Before(items: nat -> seq<Item>, splits: seq<nat>, k: nat): (n: nat)
    requires k <= |splits|
  {
    if k == 0 then 0 else Before(items, splits, k - 1) + |items(splits[k - 1])|
  }

  /** Each split's items stand in one block, in the order of the list, with nothing else. */
  lemma {:induction false} ReadEachAt(items: nat -> seq<Item>, splits: seq<nat>, k: nat, j: nat)
    requires k < |splits| && j < |items(splits[k])|
    ensures |ReadEach(items, splits)| == Before(items, splits, |splits|)
    ensures Before(items, splits, k) + j < |ReadEach(items, splits)|
    ensures ReadEach(items, splits)[Before(items, splits, k) + j] == items(splits[k])[j]
  {
    BeforeIs(items, splits, k);
    BeforeIs(items, splits, |splits|);
    assert splits[..|splits|] == splits;
    var a, b := splits[..k], splits[k..];
    assert splits == a + b && b[0] == splits[k];
    ReadEachAppend(items, a, b);
  }

  lemma {:induction false} BeforeIs(items: nat -> seq<Item>, splits: seq<nat>, k: nat)
    requires k <= |splits|
    ensures Before(items, splits, k) == |ReadEach(items, splits[..k])|
  {
    if k > 0 {
      BeforeIs(items, splits, k - 1);
      assert splits[..k] == splits[..k - 1] + [splits[k - 1]];
      ReadEachAppend(items, splits[..k - 1], [splits[k - 1]]);
      assert [splits[k - 1]][1..] == [];
    }
  }

  /** The stream of one native reader. */
  function NativeStream(items: nat -> seq<Item>, r: Range, n: nat): (s: seq<Item>) {
    var (start, end) := Clamp(r, n);
    ReadEach(items, Indices(Range(start, end - start)))
  }

  function Concat(streams: seq<seq<Item>>): (s: seq<Item>) {
    if streams == [] then [] else streams[0] + Concat(streams[1..])
  }

  function Streams(items: nat -> seq<Item>, ranges: seq<Range>, n: nat): (s: seq<seq<Item>>)
    ensures |s| == |ranges|
  {
    if ranges == [] then [] else [NativeStream(items, ranges[0], n)] + Streams(items, ranges[1..], n)
  }

  lemma {:induction false} StreamsReadEach(items: nat -> seq<Item>, ranges: seq<Range>, n: nat)
    requires forall k :: 0 <= k < |ranges| ==> ranges[k].offset + ranges[k].length <= n
    ensures Concat(Streams(items, ranges, n)) == ReadEach(items, Flatten(ranges))
  {
    if ranges != [] {
      var r, more := ranges[0], ranges[1..];
      StreamsReadEach(items, more, n);
      ReadEachAppend(items, Indices(r), Flatten(more));
      assert Range(r.offset, r.offset + r.length - r.offset) == r;
      assert ([NativeStream(items, r, n)] + Streams(items, more, n))[1..] == Streams(items, more, n);
    }
  }

  /** The readers opened for any choice of splits, drained in turn, yield what reading
      the chosen splits in index order yields, each as often as it was chosen. */
  lemma RangesReadSplits(items: nat -> seq<Item>, chosen: seq<nat>, n: nat)
    requires chosen != [] && forall i :: 0 <= i < |chosen| ==> chosen[i] < n
    ensures Sort(chosen) != [] && Ascending(Sort(chosen)) && multiset(Sort(chosen)) == multiset(chosen)
    ensures Concat(Streams(items, Group(Sort(chosen)), n)) == ReadEach(items, Sort(chosen))
  {
    hide Sort, GroupFrom, Streams;
    SortSorts(chosen);
    var sorted := Sort(chosen);
    forall i | 0 <= i < |sorted| ensures sorted[i] < n {
      assert sorted[i] in multiset(chosen);
    }
    var ranges := Group(sorted);
    forall k | 0 <= k < |ranges| ensures ranges[k].offset + ranges[k].length <= n {
      ClampIsIdentity(sorted, n, k);
    }
    StreamsReadEach(items, ranges, n);
    FlattenGroup(sorted);
  }

  class RecordBatchReader {
    var readers: seq<seq<Item>>     // what each native reader has yet to yield
    var current: nat
    var closed: bool                // the slice is nil
    var freed: nat                  // native readers freed, each with its library reference

    ghost predicate Valid()
      reads this
    {
      if closed then readers == [] else current <= |readers|
    }

    /** What is still to come. */
    function Remaining(): (s: seq<Item>)
      requires Valid()
      reads this
    {
      if closed then [] else Concat(readers[current..])
    }

    constructor (streams: seq<seq<Item>>)
      ensures Valid() && !closed && readers == streams && freed == 0 && Remaining() == Concat(streams)
    {
      readers, current, closed, freed := streams, 0, false, 0;
      new;
      assert readers[0..] == streams;
    }

    /** The next item, or the end for good. */
    method NextItem() returns (r: Next)
      requires Valid() && !closed
      modifies this`readers, this`current
      ensures Valid() && |readers| == |old(readers)|
      ensures old(Remaining()) == [] ==> r == EndOfStream && Remaining() == []
      ensures old(Remaining()) != [] ==> r == Got(old(Remaining())[0]) && Remaining() == old(Remaining())[1..]
    {
      while current < |readers|
        invariant Valid() && readers == old(readers) && Remaining() == old(Remaining())
        decreases |readers| - current
      {
        assert readers[current..][0] == readers[current] && readers[current..][1..] == readers[current + 1..];
        if readers[current] != [] {
          var item := readers[current][0];
          ghost var rest := Concat(readers[current + 1..]);
          ghost var stream := readers[current];
          r := Got(item);
          readers := readers[current := readers[current][1..]];
          assert readers[current..] == [stream[1..]] + old(readers)[current + 1..];
          assert ([stream[1..]] + old(readers)[current + 1..])[1..] == old(readers)[current + 1..];
          assert (stream + rest)[1..] == stream[1..] + rest;
          return;
        }
        current := current + 1;
      }
      assert readers[current..] == [];
      r := EndOfStream;
    }

    method NextRecord() returns (r: Next)
      requires Valid()
      modifies this`readers, this`current
      ensures Valid() && |readers| == |old(readers)|
      ensures closed ==> r == Closed
      ensures !closed && old(Remaining()) == [] ==> r == EndOfStream && Remaining() == []
      ensures !closed && old(Remaining()) != [] ==> r == Got(old(Remaining())[0]) && Remaining() == old(Remaining())[1..]
    {
      if closed { return Closed; }
      r := NextItem();
    }

    /** The first close frees every native reader once, drained or not; later ones nothing. */
    method Close()
      requires Valid()
      modifies this`readers, this`closed, this`freed
      ensures Valid() && closed && Remaining() == []
      ensures freed == old(freed) + |old(readers)| && (old(closed) ==> freed == old(freed))
    {
      if !closed {
        for i := 0 to |readers|
          invariant freed == old(freed) + i && readers == old(readers) && !closed
        {
          freed := freed + 1;
        }
        readers, closed := [], true;
      }
    }

    /** Reading to the end terminates and collects exactly what was to come. */
    method ReadAll() returns (all: seq<Item>)
      requires Valid() && !closed
      modifies this`readers, this`current
      ensures Valid() && all == old(Remaining()) && Remaining() == [] && |readers| == |old(readers)|
    {
      hide Concat;
      all := [];
      while true
        invariant Valid() && |readers| == |old(readers)| && all + Remaining() == old(Remaining())
        decreases |Remaining()|
      {
        ghost var before := Remaining();
        var r := NextRecord();
        if r == EndOfStream {
          assert all + [] == all;
          return;
        }
        MoveOne(all, before);
        all := all + [r.item];
      }
    }
  }

  lemma MoveOne(all: seq<Item>, rest: seq<Item>)
    requires rest != []
    ensures all + rest == all + [rest[0]] + rest[1..]
  {
  }

  datatype DataSplit = DataSplit(plan: nat, index: nat)

  datatype Outcome = Read(items: seq<Item>) | NoSplits | DifferentPlans

  function IndicesOf(splits: seq<DataSplit>): (s: seq<nat>)
    ensures |s| == |splits| && forall i :: 0 <= i < |s| ==> s[i] == splits[i].index
  {
    seq(|splits|, i requires 0 <= i < |splits| => splits[i].index)
  }

  /** NewRecordBatchReader over any choice of splits, then drained. `plans` says what each
      split of each plan holds and `sizes` how many splits a plan has. */
  method ReadSplits(plans: nat -> nat -> seq<Item>, sizes: nat -> nat, splits: seq<DataSplit>) returns (r: Outcome)
    requires forall i :: 0 <= i < |splits| ==> splits[i].index < sizes(splits[i].plan)
    ensures r == NoSplits <==> splits == []
    ensures r == DifferentPlans <==> exists i :: 0 <= i < |splits| && splits[i].plan != splits[0].plan
    ensures r.Read? ==> r.items == ReadEach(plans(splits[0].plan), Sort(IndicesOf(splits)))
  {
    if splits == [] { return NoSplits; }
    var plan := splits[0].plan;
    var indices := new nat[|splits|];
    for i := 0 to |splits|
      invariant forall k :: 0 <= k < i ==> splits[k].plan == plan && indices[k] == splits[k].index
    {
      if splits[i].plan != plan { return DifferentPlans; }
      indices[i] := splits[i].index;
    }
    ghost var chosen := IndicesOf(splits);
    assert indices[..] == chosen;
    RangesReadSplits(plans(plan), chosen, sizes(plan));
    SortInts(indices);
    hide Sort, Streams, ReadEach, Concat;
    var ranges := GroupIndices(indices[..]);
    var reader := new RecordBatchReader(Streams(plans(plan), ranges, sizes(plan)));
    var all := reader.ReadAll();
    r := Read(all);
  }
}
