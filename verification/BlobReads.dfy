/** Fetching selected rows of a blob file: entry ranges are sorted and coalesced
into larger reads, the reads complete in any order, and the entries are cut out
of them. The merged form must give what reading each entry on its own gives, at
a bounded cost.
*/
module BlobReads {
  import opened Bytes
  import BF = BlobFile
  import DV = DeltaVarint
  import opened Options
  import Sorting

  const MERGE_GAP: nat := 1024 * 1024
  const MERGE_MAX_SPAN: nat := 8 * 1024 * 1024
  const MERGE_MAX_AMPLIFICATION: nat := 2

  /** One entry to fetch: which result it fills and its byte range. */
  datatype EntryRead = EntryRead(slot: nat, start: nat, end: nat)

  datatype MergedRead = MergedRead(start: nat, end: nat, entries: seq<EntryRead>, selected: nat)

  predicate Le(a: EntryRead, b: EntryRead) {
    a.start < b.start || (a.start == b.start && (a.end < b.end || (a.end == b.end && a.slot <= b.slot)))
  }

  predicate Sorted(s: seq<EntryRead>) {
    forall i, j :: 0 <= i < j < |s| ==> Le(s[i], s[j])
  }

  predicate WellFormed(s: seq<EntryRead>) {
    forall i :: 0 <= i < |s| ==> s[i].start <= s[i].end < TWO_64
  }

  // ---------------------------------------------------------------- sorting

  method SortReads(requested: seq<EntryRead>) returns (r: seq<EntryRead>)
    ensures Sorted(r) && multiset(r) == multiset(requested)
  {
    r := Sorting.Sort(requested, Le);
    Sorting.SortSorts(requested, Le);
    forall i, j | 0 <= i < j < |r| ensures Le(r[i], r[j]) {
    }
  }

  // ---------------------------------------------------------------- merging

  function Max(a: int, b: int): (m: int) { if a < b then b else a }

  /** Rust's saturating u64 arithmetic on an exact result. */
  function Saturate(x: int): (u: U64) { if x < 0 then 0 else if x < TWO_64 then x else TWO_64 - 1 }

  function Alone(read: EntryRead): (m: MergedRead)
    requires read.start <= read.end
  {
    MergedRead(read.start, read.end, [read], read.end - read.start)
  }

  function Extend(current: MergedRead, read: EntryRead): (m: MergedRead) {
    MergedRead(current.start, Max(current.end, read.end), current.entries + [read],
               Saturate(current.selected + Saturate(read.end - Max(read.start, current.end))))
  }

  predicate Mergeable(current: MergedRead, read: EntryRead) {
    var next := Extend(current, read);
    && (read.start >= current.end ==> read.start - current.end <= MERGE_GAP)
    && next.end - next.start <= MERGE_MAX_SPAN
    && next.end - next.start <= Saturate(next.selected * MERGE_MAX_AMPLIFICATION)
  }

  /** The byte positions from `lo` up to `hi`. */
  ghost function Interval(lo: int, hi: int): (s: set<int>)
    ensures |s| == if lo < hi then hi - lo else 0
    ensures forall x :: x in s <==> lo <= x < hi
    decreases hi - lo
  {
    if lo >= hi then {} else Interval(lo, hi - 1) + {hi - 1}
  }

  /** The byte positions some entry asks for. */
  ghost function Covered(entries: seq<EntryRead>): (s: set<int>) {
    if entries == [] then {} else
      var n := |entries| - 1;
      Covered(entries[..n]) + Interval(entries[n].start, entries[n].end)
  }

  lemma {:induction false} EntryCovered(entries: seq<EntryRead>, k: nat)
    requires k < |entries|
    ensures Interval(entries[k].start, entries[k].end) <= Covered(entries)
  {
    hide Interval;
    var n := |entries| - 1;
    if k < n { EntryCovered(entries[..n], k); }
  }

  lemma {:induction false} CoveredWithin(entries: seq<EntryRead>, lo: int, hi: int)
    requires forall i :: 0 <= i < |entries| ==> lo <= entries[i].start && entries[i].end <= hi
    ensures Covered(entries) <= Interval(lo, hi)
  {
    hide Interval;
    if entries != [] { CoveredWithin(entries[..|entries| - 1], lo, hi); }
  }

  /** What holds of every merged read: it spans exactly its entries, `selected` counts
      the bytes they ask for once each, and at most twice as many are transferred. */
  ghost predicate Tight(m: MergedRead) {
    && m.entries != [] && WellFormed(m.entries)
    && m.start == m.entries[0].start
    && (forall i :: 0 <= i < |m.entries| ==> m.start <= m.entries[i].start && m.entries[i].end <= m.end)
    && (exists i :: 0 <= i < |m.entries| && m.entries[i].end == m.end)
    && m.selected == |Covered(m.entries)|
    && m.end - m.start <= MERGE_MAX_AMPLIFICATION * m.selected
    && (|m.entries| > 1 ==> m.end - m.start <= MERGE_MAX_SPAN)
  }

  lemma AloneIsTight(read: EntryRead)
    requires read.start <= read.end < TWO_64
    ensures Tight(Alone(read))
  {
    var m := Alone(read);
    assert m.entries[0].end == m.end;
    assert m.entries[..0] == [];
    assert Covered(m.entries) == Interval(read.start, read.end);
  }

  /** Sorted by start, an entry adds exactly the bytes beyond the furthest end so far:
      whatever of it lies before that end is already covered. */
  lemma CoveredGrows(m: MergedRead, read: EntryRead)
    requires Tight(m) && read.start <= read.end
    requires forall i :: 0 <= i < |m.entries| ==> m.entries[i].start <= read.start
    ensures |Covered(m.entries + [read])| == |Covered(m.entries)| + |Interval(Max(read.start, m.end), read.end)|
  {
    hide Interval;
    assert (m.entries + [read])[..|m.entries|] == m.entries;
    var k :| 0 <= k < |m.entries| && m.entries[k].end == m.end;
    EntryCovered(m.entries, k);
    CoveredWithin(m.entries, m.start, m.end);
    UnionSize(Covered(m.entries), read.start, m.end, read.end);
  }

  lemma UnionSize(s: set<int>, lo: int, mid: int, hi: int)
    requires forall x :: x in s ==> x < mid
    requires Interval(lo, mid) <= s
    ensures |s + Interval(lo, hi)| == |s| + |Interval(Max(lo, mid), hi)|
  {
    hide Interval;
    var added := Interval(Max(lo, mid), hi);
    assert s + Interval(lo, hi) == s + added;
    assert s !! added;
  }

  lemma CoveredBound(m: MergedRead)
    requires Tight(m)
    ensures m.selected <= m.end - m.start < TWO_64
  {
    CoveredWithin(m.entries, m.start, m.end);
    SubsetSize(Covered(m.entries), Interval(m.start, m.end));
  }

  lemma SubsetSize(a: set<int>, b: set<int>)
    requires a <= b
    ensures |a| <= |b|
  {
    assert b == a + (b - a) && a !! b - a;
  }

  lemma ExtendIsTight(m: MergedRead, read: EntryRead)
    requires Tight(m) && read.start <= read.end < TWO_64
    requires forall i :: 0 <= i < |m.entries| ==> m.entries[i].start <= read.start
    requires Mergeable(m, read)
    ensures Tight(Extend(m, read))
  {
    var next := Extend(m, read);
    CoveredGrows(m, read);
    CoveredBound(m);
    ExtendSpans(m, read);
  }

  lemma ExtendSpans(m: MergedRead, read: EntryRead)
    requires Tight(m) && read.start <= read.end < TWO_64
    requires forall i :: 0 <= i < |m.entries| ==> m.entries[i].start <= read.start
    ensures var next := Extend(m, read);
      && WellFormed(next.entries) && next.start == next.entries[0].start
      && (forall i :: 0 <= i < |next.entries| ==> next.start <= next.entries[i].start && next.entries[i].end <= next.end)
      && (exists i :: 0 <= i < |next.entries| && next.entries[i].end == next.end)
  {
    hide Covered;
    var next := Extend(m, read);
    assert m.entries[0].start <= read.start;
    if next.end == read.end {
      assert next.entries[|m.entries|].end == next.end;
    } else {
      var k :| 0 <= k < |m.entries| && m.entries[k].end == m.end;
      assert next.entries[k].end == next.end;
    }
  }

  /** The merge loop with `current` in hand. */
  function MergeFrom(current: MergedRead, rest: seq<EntryRead>): (r: seq<MergedRead>)
    requires WellFormed(rest)
    decreases |rest|
  {
    if rest == [] then [current]
    else if Mergeable(current, rest[0]) then MergeFrom(Extend(current, rest[0]), rest[1..])
    else [current] + MergeFrom(Alone(rest[0]), rest[1..])
  }

  function Entries(groups: seq<MergedRead>): (s: seq<EntryRead>) {
    if groups == [] then [] else groups[0].entries + Entries(groups[1..])
  }

  /** Merging loses, invents and reorders nothing, and every merged read is tight. */
  lemma {:induction false} MergeIsTight(current: MergedRead, rest: seq<EntryRead>)
    requires Tight(current) && WellFormed(rest) && Sorted(current.entries + rest)
    ensures Entries(MergeFrom(current, rest)) == current.entries + rest
    ensures forall g :: g in MergeFrom(current, rest) ==> Tight(g)
    decreases |rest|
  {
    hide Tight, Mergeable, Extend, Alone;
    var all := current.entries + rest;
    if rest == [] {
      assert [current][1..] == [];
      assert Entries([current]) == current.entries + Entries([]);
    } else {
      var read, tail := rest[0], rest[1..];
      assert read == all[|current.entries|];
      forall i | 0 <= i < |current.entries| ensures current.entries[i].start <= read.start {
        assert Le(all[i], all[|current.entries|]);
      }
      assert WellFormed(tail) by { assert forall i :: 0 <= i < |tail| ==> tail[i] == rest[i + 1]; }
      if Mergeable(current, read) {
        ExtendIsTight(current, read);
        var next := Extend(current, read);
        ExtendEntries(current, read);
        assert next.entries + tail == all;
        MergeIsTight(next, tail);
      } else {
        AloneIsTight(read);
        AloneEntries(read);
        assert forall i :: 0 <= i < |rest| ==> rest[i] == all[|current.entries| + i];
        assert [read] + tail == rest;
        MergeIsTight(Alone(read), tail);
        var more := MergeFrom(Alone(read), tail);
        assert ([current] + more)[1..] == more;
      }
    }
  }

  // ------------------------------------------------- as few reads as allowed

  /** The furthest end among these entries. */
  ghost function Reach(entries: seq<EntryRead>): (end: int)
    requires entries != []
  {
    var n := |entries| - 1;
    if n == 0 then entries[0].end else Max(Reach(entries[..n]), entries[n].end)
  }

  /** Whether one more entry may join a read: the gap before it is at most a mebibyte, the
      whole at most eight, and at most twice the bytes anybody asked for. */
  ghost predicate Joinable(entries: seq<EntryRead>, read: EntryRead)
    requires entries != []
  {
    var all := entries + [read];
    var span := Reach(all) - entries[0].start;
    && read.start - Reach(entries) <= 0x10_0000
    && span <= 0x80_0000
    && span <= 2 * |Covered(all)|
  }

  /** Each entry but the first joined the ones before it. */
  ghost predicate Grown(entries: seq<EntryRead>) {
    forall k :: 0 < k < |entries| ==> Joinable(entries[..k], entries[k])
  }

  /** Every read grew as far as it could: the entry that opens the next one could not have
      joined. */
  ghost predicate Greedy(groups: seq<MergedRead>) {
    && (forall i :: 0 <= i < |groups| ==> groups[i].entries != [] && Grown(groups[i].entries))
    && (forall i :: 0 <= i < |groups| - 1 ==> Separate(groups[i], groups[i + 1]))
  }

  ghost predicate Separate(g: MergedRead, h: MergedRead) {
    g.entries != [] && h.entries != [] && !Joinable(g.entries, h.entries[0])
  }

  lemma {:induction false} ReachIs(entries: seq<EntryRead>, end: int)
    requires entries != [] && (forall i :: 0 <= i < |entries| ==> entries[i].end <= end)
    requires exists i :: 0 <= i < |entries| && entries[i].end == end
    ensures Reach(entries) == end
  {
    var n := |entries| - 1;
    ReachBounds(entries);
    var i :| 0 <= i < |entries| && entries[i].end == end;
    assert entries[i].end <= Reach(entries);
  }

  lemma {:induction false} ReachBounds(entries: seq<EntryRead>)
    requires entries != []
    ensures forall i :: 0 <= i < |entries| ==> entries[i].end <= Reach(entries)
    ensures exists i :: 0 <= i < |entries| && entries[i].end == Reach(entries)
  {
    var n := |entries| - 1;
    if n == 0 {
      assert entries[0].end == Reach(entries);
    } else {
      ReachBounds(entries[..n]);
      var i :| 0 <= i < n && entries[..n][i].end == Reach(entries[..n]);
      assert entries[i].end == Reach(entries[..n]);
      assert entries[n].end <= Reach(entries);
      forall k | 0 <= k < |entries| ensures entries[k].end <= Reach(entries) {
        if k < n { assert entries[..n][k].end <= Reach(entries[..n]); }
      }
    }
  }

  /** The loop's test, with its running counters and saturating arithmetic, is exactly that. */
  lemma MergeableIsJoinable(m: MergedRead, read: EntryRead)
    requires Tight(m) && read.start <= read.end < TWO_64
    requires forall i :: 0 <= i < |m.entries| ==> m.entries[i].start <= read.start
    ensures Mergeable(m, read) <==> Joinable(m.entries, read)
  {
    var next := Extend(m, read);
    ExtendCounts(m, read);
    ExtendSpans(m, read);
    ReachIs(m.entries, m.end);
    ReachIs(next.entries, next.end);
    hide Covered, Reach, Tight, WellFormed;
    assert next.entries == m.entries + [read];
  }

  lemma ExtendCounts(m: MergedRead, read: EntryRead)
    requires Tight(m) && read.start <= read.end < TWO_64
    requires forall i :: 0 <= i < |m.entries| ==> m.entries[i].start <= read.start
    ensures Extend(m, read).selected == |Covered(m.entries + [read])| < TWO_64 && m.end < TWO_64 && m.start == m.entries[0].start
  {
    CoveredGrows(m, read);
    CoveredBound(m);
    hide Covered;
  }

  lemma GrownMore(entries: seq<EntryRead>, read: EntryRead)
    requires entries != [] && Grown(entries) && Joinable(entries, read)
    ensures Grown(entries + [read])
  {
    hide Joinable;
    var all := entries + [read];
    forall k | 0 < k < |all| ensures Joinable(all[..k], all[k]) {
      if k < |entries| {
        assert all[..k] == entries[..k];
      } else {
        assert all[..k] == entries;
      }
    }
  }

  /** Coalescing is greedy, and starts from what is in hand. */
  lemma {:induction false} MergeIsGreedy(current: MergedRead, rest: seq<EntryRead>)
    requires Tight(current) && WellFormed(rest) && Sorted(current.entries + rest) && Grown(current.entries)
    ensures Greedy(MergeFrom(current, rest))
    ensures MergeFrom(current, rest) != [] && current.entries <= MergeFrom(current, rest)[0].entries
    decreases |rest|
  {
    hide Tight, Mergeable, Extend, Alone, Joinable, Grown;
    var all := current.entries + rest;
    if rest == [] {
      OneIsGreedy(current);
    } else {
      var read, tail := rest[0], rest[1..];
      StartsBefore(current, rest);
      MergeableIsJoinable(current, read);
      if Mergeable(current, read) {
        ExtendIsTight(current, read);
        ExtendEntries(current, read);
        TightIsSome(current);
        GrownMore(current.entries, read);
        assert Extend(current, read).entries + tail == all;
        MergeIsGreedy(Extend(current, read), tail);
      } else {
        AloneIsTight(read);
        AloneEntries(read);
        AloneIsGrown(read);
        assert forall i :: 0 <= i < |rest| ==> rest[i] == all[|current.entries| + i];
        assert [read] + tail == rest;
        MergeIsGreedy(Alone(read), tail);
        TightIsSome(current);
        GreedyCons(current, MergeFrom(Alone(read), tail));
      }
    }
  }

  lemma StartsBefore(current: MergedRead, rest: seq<EntryRead>)
    requires WellFormed(rest) && Sorted(current.entries + rest) && rest != []
    ensures forall i :: 0 <= i < |current.entries| ==> current.entries[i].start <= rest[0].start
    ensures WellFormed(rest[1..]) && rest[0].start <= rest[0].end < TWO_64
  {
    var all := current.entries + rest;
    forall i | 0 <= i < |current.entries| ensures current.entries[i].start <= rest[0].start {
      assert Le(all[i], all[|current.entries|]);
    }
  }

  lemma TightIsSome(m: MergedRead)
    requires Tight(m)
    ensures m.entries != []
  {
  }

  lemma OneIsGreedy(m: MergedRead)
    requires Tight(m) && Grown(m.entries)
    ensures Greedy([m])
  {
    hide Joinable, Grown;
  }

  lemma AloneIsGrown(read: EntryRead)
    ensures Grown([read])
  {
  }

  lemma GreedyCons(m: MergedRead, more: seq<MergedRead>)
    requires m.entries != [] && Grown(m.entries) && Greedy(more) && more != [] && Separate(m, more[0])
    ensures Greedy([m] + more)
  {
    hide Joinable, Grown;
    var all := [m] + more;
    forall i | 0 <= i < |all| - 1 ensures Separate(all[i], all[i + 1]) {
      assert all[i + 1] == more[i];
      if i > 0 { assert all[i] == more[i - 1]; }
    }
  }

  lemma ExtendEntries(current: MergedRead, read: EntryRead)
    ensures Extend(current, read).entries == current.entries + [read]
  {
  }

  lemma AloneEntries(read: EntryRead)
    requires read.start <= read.end
    ensures Alone(read).entries == [read]
  {
  }

  method MergeEntryReads(requested: seq<EntryRead>) returns (merged: seq<MergedRead>)
    requires WellFormed(requested)
    ensures multiset(Entries(merged)) == multiset(requested) && Sorted(Entries(merged))
    ensures (forall g :: g in merged ==> Tight(g)) && Greedy(merged)
  {
    hide Tight, Mergeable, Extend, Alone, Sorted, MergeFrom, Entries, WellFormed, Grown, Joinable;
    if requested == [] {
      NothingToMerge();
      return [];
    }
    var sorted := SortReads(requested);
    SameMembers(sorted, requested);
    assert |multiset(sorted)| == |multiset(requested)| != 0;
    merged := MergeSorted(sorted);
    WellFormedTail(sorted);
    AloneIsTight(sorted[0]);
    AloneEntries(sorted[0]);
    assert [sorted[0]] + sorted[1..] == sorted;
    MergeIsTight(Alone(sorted[0]), sorted[1..]);
    AloneIsGrown(sorted[0]);
    MergeIsGreedy(Alone(sorted[0]), sorted[1..]);
  }

  lemma WellFormedTail(s: seq<EntryRead>)
    requires WellFormed(s) && s != []
    ensures WellFormed(s[1..]) && s[0].start <= s[0].end < TWO_64
  {
  }

  lemma NothingToMerge()
    ensures Entries([]) == [] && Sorted([])
  {
  }

  method MergeSorted(sorted: seq<EntryRead>) returns (merged: seq<MergedRead>)
    requires WellFormed(sorted) && sorted != []
    ensures merged == MergeFrom(Alone(sorted[0]), sorted[1..])
  {
    hide Mergeable, Extend, Alone, MergeFrom;
    var current := Alone(sorted[0]);
    merged := [];
    for i := 1 to |sorted|
      invariant MergeFrom(Alone(sorted[0]), sorted[1..]) == merged + MergeFrom(current, sorted[i..])
    {
      var read := sorted[i];
      MergeStep(current, sorted, i);
      if Mergeable(current, read) {
        current := Extend(current, read);
      } else {
        merged := merged + [current];
        current := Alone(read);
      }
    }
    MergeEnd(current, sorted);
    merged := merged + [current];
  }

  lemma MergeStep(current: MergedRead, sorted: seq<EntryRead>, i: nat)
    requires i < |sorted| && WellFormed(sorted[i..]) && WellFormed(sorted[i + 1..])
    requires sorted[i].start <= sorted[i].end
    ensures MergeFrom(current, sorted[i..])
         == if Mergeable(current, sorted[i]) then MergeFrom(Extend(current, sorted[i]), sorted[i + 1..])
            else [current] + MergeFrom(Alone(sorted[i]), sorted[i + 1..])
  {
    assert sorted[i..][1..] == sorted[i + 1..];
  }

  lemma MergeEnd(current: MergedRead, sorted: seq<EntryRead>)
    ensures MergeFrom(current, sorted[|sorted|..]) == [current]
  {
    assert sorted[|sorted|..] == [];
  }

  lemma SameMembers(a: seq<EntryRead>, b: seq<EntryRead>)
    requires multiset(a) == multiset(b) && WellFormed(b)
    ensures WellFormed(a)
  {
    forall i | 0 <= i < |a| ensures a[i].start <= a[i].end < TWO_64 {
      assert a[i] in multiset(b);
    }
  }

  // --------------------------------------------------------------- fetching

  datatype Fetched = Fetched(read: EntryRead, bytes: seq<Byte>)

  datatype Outcome = Rows(rows: seq<BF.Row>) | OutOfRange | Failed(failure: BF.Failure)

  /** The entry range of a value slot, as the plan computes it. */
  function PlanEntry(i: nat, slot: BF.Slot): (r: EntryRead)
    requires slot.Payload? && BF.InFile(slot, TWO_64 - 1)
    ensures r.start <= r.end < TWO_64
  {
    EntryRead(i, slot.start - BF.HEADER_SIZE, slot.end + BF.TRAILER_SIZE)
  }

  predicate FromPlan(e: EntryRead, slot: BF.Slot)
    requires BF.InFile(slot, TWO_64 - 1)
  {
    slot.Payload? && e == PlanEntry(e.slot, slot)
  }

  function SlotRow(slot: BF.Slot): (r: BF.Row)
    requires !slot.Payload?
  {
    if slot.NullSlot? then BF.Null else BF.Placeholder
  }

  predicate Planned(slots: seq<BF.Slot>, positions: seq<nat>, size: nat) {
    && (forall k :: 0 <= k < |slots| ==> BF.InFile(slots[k], size))
    && (forall i :: 0 <= i < |positions| ==> positions[i] < |slots|)
  }

  lemma {:induction false} EntriesAppend(a: seq<MergedRead>, b: seq<MergedRead>)
    ensures Entries(a + b) == Entries(a) + Entries(b)
  {
    if a == [] {
      assert a + b == b;
    } else {
      EntriesAppend(a[1..], b);
      assert (a + b)[1..] == a[1..] + b;
      assert Entries(a + b) == a[0].entries + (Entries(a[1..]) + Entries(b));
    }
  }

  /** The bytes that arrived are the bytes of the file at the requested range. */
  ghost predicate Exact(file: seq<Byte>, f: Fetched) {
    f.read.start <= f.read.end <= |file| && f.bytes == file[f.read.start..f.read.end]
  }

  ghost predicate Arrived(resolved: seq<Fetched>, e: EntryRead) {
    exists k :: 0 <= k < |resolved| && resolved[k].read == e
  }

  /** Read every merged range once, in whatever order they complete, and cut the
      entries out: what arrives is what was asked for, each with exactly its own bytes.
      The requests issued are those of a greedy plan, each once. */
  method ReadMerged(file: seq<Byte>, requested: seq<EntryRead>)
    returns (resolved: seq<Fetched>, ghost plan: seq<MergedRead>, ghost issued: seq<MergedRead>)
    requires WellFormed(requested) && forall e :: e in requested ==> e.end <= |file|
    ensures forall k :: 0 <= k < |resolved| ==> resolved[k].read in requested && Exact(file, resolved[k])
    ensures forall e :: e in requested ==> Arrived(resolved, e)
    ensures multiset(Entries(plan)) == multiset(requested) && Greedy(plan) && (forall g :: g in plan ==> Tight(g))
    ensures multiset(issued) == multiset(plan)
  {
    var pending := MergeEntryReads(requested);
    plan, issued := pending, [];
    AllToIssue(plan);
    hide Outstanding, CutFrom, Greedy, Tight, Entries, Arrived, Exact, Accounted;
    resolved := [];
    AllOutstanding(file, requested, pending);
    while pending != []
      invariant Outstanding(file, requested, pending, resolved)
      invariant Accounted(issued, pending, plan)
      decreases |pending|
    {
      var i := AnyIndex(|pending|);
      CanCut(file, requested, pending, resolved, i);
      var one := CutEntries(file, pending[i]);
      OneArrived(file, requested, pending, resolved, i, one);
      IssueOne(issued, pending, plan, i);
      issued := issued + [pending[i]];
      resolved := resolved + one;
      pending := pending[..i] + pending[i + 1..];
    }
    NothingOutstanding(file, requested, resolved);
    AllIssued(issued, plan);
  }

  /** Every read of the plan has been issued or is still to come, each once. */
  ghost predicate Accounted(issued: seq<MergedRead>, pending: seq<MergedRead>, plan: seq<MergedRead>) {
    multiset(issued) + multiset(pending) == multiset(plan)
  }

  lemma AllToIssue(plan: seq<MergedRead>)
    ensures Accounted([], plan, plan)
  {
  }

  lemma AllIssued(issued: seq<MergedRead>, plan: seq<MergedRead>)
    requires Accounted(issued, [], plan)
    ensures multiset(issued) == multiset(plan)
  {
  }

  lemma IssueOne(issued: seq<MergedRead>, pending: seq<MergedRead>, plan: seq<MergedRead>, i: nat)
    requires Accounted(issued, pending, plan) && i < |pending|
    ensures Accounted(issued + [pending[i]], pending[..i] + pending[i + 1..], plan)
  {
    assert pending == pending[..i] + [pending[i]] + pending[i + 1..];
  }

  /** Everything requested has arrived or is still to come, and nothing else. */
  ghost predicate Outstanding(file: seq<Byte>, requested: seq<EntryRead>, pending: seq<MergedRead>, resolved: seq<Fetched>) {
    && (forall g :: g in pending ==> Tight(g))
    && (forall e :: e in Entries(pending) ==> e in requested)
    && (forall k :: 0 <= k < |resolved| ==> resolved[k].read in requested && Exact(file, resolved[k]))
    && (forall e :: e in requested ==> Arrived(resolved, e) || e in Entries(pending))
  }

  /** The entries of one merged read, each with its own bytes. */
  ghost predicate CutFrom(file: seq<Byte>, m: MergedRead, one: seq<Fetched>) {
    && (forall k :: 0 <= k < |one| ==> one[k].read in m.entries && Exact(file, one[k]))
    && (forall e :: e in m.entries ==> Arrived(one, e))
  }

  lemma AllOutstanding(file: seq<Byte>, requested: seq<EntryRead>, pending: seq<MergedRead>)
    requires multiset(Entries(pending)) == multiset(requested) && forall g :: g in pending ==> Tight(g)
    ensures Outstanding(file, requested, pending, [])
  {
    hide Tight, Entries, Exact;
    forall e | e in Entries(pending) ensures e in requested { assert e in multiset(requested); }
    forall e | e in requested ensures e in Entries(pending) { assert e in multiset(Entries(pending)); }
  }

  lemma CanCut(file: seq<Byte>, requested: seq<EntryRead>, pending: seq<MergedRead>, resolved: seq<Fetched>, i: nat)
    requires Outstanding(file, requested, pending, resolved) && i < |pending|
    requires forall e :: e in requested ==> e.end <= |file|
    ensures Tight(pending[i]) && forall e :: e in pending[i].entries ==> e.end <= |file|
  {
    hide Tight, Entries, Exact, Arrived;
    assert pending[i] in pending;
    TakeOut(pending, i);
  }

  lemma OneArrived(file: seq<Byte>, requested: seq<EntryRead>, pending: seq<MergedRead>, resolved: seq<Fetched>, i: nat, one: seq<Fetched>)
    requires Outstanding(file, requested, pending, resolved) && i < |pending| && CutFrom(file, pending[i], one)
    ensures Outstanding(file, requested, pending[..i] + pending[i + 1..], resolved + one)
  {
    hide Tight, Entries, Exact, Arrived;
    TakeOut(pending, i);
    ArrivedMore(resolved, one);
    forall k | 0 <= k < |resolved + one| ensures (resolved + one)[k].read in requested && Exact(file, (resolved + one)[k]) {
      if k >= |resolved| { assert (resolved + one)[k] == one[k - |resolved|]; }
    }
  }

  lemma NothingOutstanding(file: seq<Byte>, requested: seq<EntryRead>, resolved: seq<Fetched>)
    requires Outstanding(file, requested, [], resolved)
    ensures forall k :: 0 <= k < |resolved| ==> resolved[k].read in requested && Exact(file, resolved[k])
    ensures forall e :: e in requested ==> Arrived(resolved, e)
  {
    EntriesNil();
  }

  lemma EntriesNil()
    ensures Entries([]) == []
  {
  }

  /** Which of the outstanding requests completes next is not determined. */
  method AnyIndex(n: nat) returns (i: nat)
    requires n > 0
    ensures i < n
  {
    assert 0 <= 0 < n;
    i :| 0 <= i < n;
  }

  lemma TakeOut(pending: seq<MergedRead>, i: nat)
    requires i < |pending|
    ensures forall e :: e in Entries(pending) <==> e in pending[i].entries || e in Entries(pending[..i] + pending[i + 1..])
  {
    var a, b := pending[..i], pending[i + 1..];
    assert pending == a + ([pending[i]] + b);
    EntriesAppend(a, [pending[i]] + b);
    assert ([pending[i]] + b)[1..] == b;
    EntriesAppend(a, b);
  }

  lemma ArrivedMore(a: seq<Fetched>, b: seq<Fetched>)
    ensures forall e :: Arrived(a, e) || Arrived(b, e) ==> Arrived(a + b, e)
  {
    forall e | Arrived(a, e) || Arrived(b, e) ensures Arrived(a + b, e) {
      if Arrived(a, e) {
        var k :| 0 <= k < |a| && a[k].read == e;
        assert (a + b)[k].read == e;
      } else {
        var k :| 0 <= k < |b| && b[k].read == e;
        assert (a + b)[|a| + k].read == e;
      }
    }
  }

  /** One merged read: a single range request, sliced per entry. */
  method CutEntries(file: seq<Byte>, m: MergedRead) returns (out: seq<Fetched>)
    requires Tight(m) && forall e :: e in m.entries ==> e.end <= |file|
    ensures CutFrom(file, m, out)
  {
    SpanInFile(m, |file|);
    hide Tight, Exact, CutOne, Arrived, CutSoFar, CutFrom;
    var data := file[m.start..m.end];
    out := [];
    NothingCut(file, m);
    for j := 0 to |m.entries|
      invariant |out| == j && CutSoFar(file, m, out)
    {
      var e := m.entries[j];
      assert e in m.entries;
      var f := CutOne(file, m.start, m.end, data, e);
      CutMore(file, m, out, f);
      out := out + [f];
    }
    AllCut(file, m, out);
  }

  ghost predicate CutSoFar(file: seq<Byte>, m: MergedRead, out: seq<Fetched>) {
    |out| <= |m.entries| && forall k :: 0 <= k < |out| ==> out[k].read == m.entries[k] && Exact(file, out[k])
  }

  lemma NothingCut(file: seq<Byte>, m: MergedRead)
    ensures CutSoFar(file, m, [])
  {
  }

  lemma CutMore(file: seq<Byte>, m: MergedRead, out: seq<Fetched>, f: Fetched)
    requires CutSoFar(file, m, out) && |out| < |m.entries| && f.read == m.entries[|out|] && Exact(file, f)
    ensures CutSoFar(file, m, out + [f])
  {
    hide Exact;
  }

  lemma AllCut(file: seq<Byte>, m: MergedRead, out: seq<Fetched>)
    requires CutSoFar(file, m, out) && |out| == |m.entries|
    ensures CutFrom(file, m, out)
  {
    hide Exact, Arrived;
    AllArrived(m.entries, out);
  }

  function CutOne(ghost file: seq<Byte>, lo: nat, ghost hi: nat, data: seq<Byte>, e: EntryRead): (f: Fetched)
    requires lo <= e.start <= e.end <= hi <= |file| && data == file[lo..hi]
    ensures f.read == e && Exact(file, f)
  {
    SliceOfSlice(file, lo, hi, e.start, e.end);
    Fetched(e, data[e.start - lo..e.end - lo])
  }

  lemma SpanInFile(m: MergedRead, size: nat)
    requires Tight(m) && forall e :: e in m.entries ==> e.end <= size
    ensures m.start <= m.end <= size
    ensures forall e :: e in m.entries ==> m.start <= e.start <= e.end <= m.end
  {
    hide Covered;
    var last :| 0 <= last < |m.entries| && m.entries[last].end == m.end;
    assert m.entries[last] in m.entries;
  }

  lemma AllArrived(entries: seq<EntryRead>, out: seq<Fetched>)
    requires |out| == |entries| && forall k :: 0 <= k < |out| ==> out[k].read == entries[k]
    ensures forall e :: e in entries ==> Arrived(out, e)
  {
    forall e | e in entries ensures Arrived(out, e) {
      var k :| 0 <= k < |entries| && entries[k] == e;
      assert out[k].read == e;
    }
  }

  lemma SliceOfSlice(file: seq<Byte>, lo: nat, hi: nat, start: nat, end: nat)
    requires lo <= start <= end <= hi <= |file|
    ensures file[lo..hi][start - lo..end - lo] == file[start..end]
  {
    var data := file[lo..hi];
    var x, y := data[start - lo..end - lo], file[start..end];
    assert |x| == |y|;
    forall i | 0 <= i < |x| ensures x[i] == y[i] {
      assert x[i] == data[start - lo + i] == file[start + i];
    }
  }

  /** What each position holds, read on its own. */
  ghost predicate RowsAt(crc: BF.Checksum, file: seq<Byte>, slots: seq<BF.Slot>, positions: seq<nat>, rows: seq<BF.Row>)
    requires Planned(slots, positions, |file|)
  {
    && |rows| == |positions|
    && forall i :: 0 <= i < |positions| ==> BF.ReadSlot(crc, file, slots[positions[i]]) == BF.Ok(rows[i])
  }

  /** Rows at any positions, in any order and with repeats: the coalesced fetch returns
      what separate reads return, and fails only with a failure one of them has. */
  method FetchRows(crc: BF.Checksum, file: seq<Byte>, slots: seq<BF.Slot>, positions: seq<nat>) returns (r: Outcome)
    requires |file| < TWO_64 && forall k :: 0 <= k < |slots| ==> BF.InFile(slots[k], |file|)
    ensures r.OutOfRange? <==> exists i :: 0 <= i < |positions| && positions[i] >= |slots|
    ensures r.Rows? ==> Planned(slots, positions, |file|) && RowsAt(crc, file, slots, positions, r.rows)
    ensures r.Failed? ==>
      exists i :: 0 <= i < |positions| && positions[i] < |slots| && BF.ReadSlot(crc, file, slots[positions[i]]) == BF.Err(r.failure)
  {
    hide BF.ReadSlot;
    var values: seq<Option<BF.Row>> := [];
    var requested: seq<EntryRead> := [];
    for i := 0 to |positions|
      invariant |values| == i
      invariant forall k :: 0 <= k < i ==> positions[k] < |slots|
      invariant forall k :: 0 <= k < i ==> if slots[positions[k]].Payload?
                  then values[k].None? && PlanEntry(k, slots[positions[k]]) in requested
                  else values[k] == Some(SlotRow(slots[positions[k]]))
      invariant forall e :: e in requested ==> e.slot < i && FromPlan(e, slots[positions[e.slot]])
    {
      if positions[i] >= |slots| {
        return OutOfRange;
      }
      var slot := slots[positions[i]];
      if slot.Payload? {
        values := values + [None];
        requested := requested + [PlanEntry(i, slot)];
      } else {
        values := values + [Some(SlotRow(slot))];
      }
    }
    var resolved, _, _ := ReadMerged(file, requested);
    r := DecodeAll(crc, file, slots, positions, values, requested, resolved);
  }

  method DecodeAll(crc: BF.Checksum, file: seq<Byte>, slots: seq<BF.Slot>, positions: seq<nat>,
                   planned: seq<Option<BF.Row>>, requested: seq<EntryRead>, resolved: seq<Fetched>) returns (r: Outcome)
    requires |file| < TWO_64 && Planned(slots, positions, |file|) && |planned| == |positions|
    requires forall k :: 0 <= k < |positions| ==> if slots[positions[k]].Payload?
               then planned[k].None? && PlanEntry(k, slots[positions[k]]) in requested
               else planned[k] == Some(SlotRow(slots[positions[k]]))
    requires forall e :: e in requested ==> e.slot < |positions| && FromPlan(e, slots[positions[e.slot]])
    requires forall k :: 0 <= k < |resolved| ==> resolved[k].read in requested && Exact(file, resolved[k])
    requires forall e :: e in requested ==> Arrived(resolved, e)
    ensures r.Rows? || r.Failed?
    ensures r.Rows? ==> RowsAt(crc, file, slots, positions, r.rows)
    ensures r.Failed? ==>
      exists i :: 0 <= i < |positions| && BF.ReadSlot(crc, file, slots[positions[i]]) == BF.Err(r.failure)
  {
    var values := planned;
    for j := 0 to |resolved|
      invariant |values| == |positions|
      invariant forall k :: 0 <= k < |positions| && values[k].Some? ==>
                  BF.ReadSlot(crc, file, slots[positions[k]]) == BF.Ok(values[k].value)
      invariant forall k :: 0 <= k < |positions| && !slots[positions[k]].Payload? ==> values[k].Some?
      invariant forall k :: 0 <= k < j ==> values[resolved[k].read.slot].Some?
    {
      var f := resolved[j];
      var i := f.read.slot;
      var one := BF.DecodeEntry(crc, f.bytes, f.read.start, f.read.end);
      if one.Err? {
        return Failed(one.failure);
      }
      values := values[i := Some(BF.Value(one.value))];
    }
    assert forall k :: 0 <= k < |positions| ==> values[k].Some? by {
      forall k | 0 <= k < |positions| ensures values[k].Some? {
        if slots[positions[k]].Payload? {
          var e := PlanEntry(k, slots[positions[k]]);
          var j :| 0 <= j < |resolved| && resolved[j].read == e;
          assert values[resolved[j].read.slot].Some?;
        }
      }
    }
    r := Rows(seq(|values|, k requires 0 <= k < |values| => values[k].value));
  }

  lemma {:induction false} ReadSlotsAt(crc: BF.Checksum, file: seq<Byte>, slots: seq<BF.Slot>, k: nat)
    requires (forall i :: 0 <= i < |slots| ==> BF.InFile(slots[i], |file|)) && k < |slots|
    requires BF.ReadSlots(crc, file, slots).Ok?
    ensures |BF.ReadSlots(crc, file, slots).value| == |slots|
    ensures BF.ReadSlot(crc, file, slots[k]) == BF.Ok(BF.ReadSlots(crc, file, slots).value[k])
  {
    hide BF.ReadSlot;
    var rest := slots[1..];
    if rest != [] { ReadSlotsAt(crc, file, rest, if k == 0 then 0 else k - 1); }
  }

  /** Together with the round trip: fetching positions of a written file yields the
      rows written there. */
  lemma FetchedAsWritten(crc: BF.Checksum, rows: seq<BF.Row>, positions: seq<nat>, got: seq<BF.Row>)
    requires BF.FileOf(crc, rows).Some? && |BF.FileOf(crc, rows).value| < TWO_64
    requires DV.NeighboursFit(BF.Lengths(rows))
    requires var file := BF.FileOf(crc, rows).value;
             && BF.LoadSpec(file).Ok? && Planned(BF.LoadSpec(file).value, positions, |file|)
             && RowsAt(crc, file, BF.LoadSpec(file).value, positions, got)
    ensures |got| == |positions|
    ensures forall i :: 0 <= i < |positions| ==> positions[i] < |rows| && got[i] == rows[positions[i]]
  {
    hide BF.FileOf, BF.LoadSpec, BF.ReadSlots, BF.ReadSlot, BF.Lengths, DV.NeighboursFit;
    BF.BlobRoundTrip(crc, rows);
    var file := BF.FileOf(crc, rows).value;
    var slots := BF.LoadSpec(file).value;
    forall i | 0 <= i < |positions| ensures positions[i] < |rows| && got[i] == rows[positions[i]] {
      ReadSlotsAt(crc, file, slots, positions[i]);
    }
  }
}
