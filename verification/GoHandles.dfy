/** Lifetimes in the Go binding: the reference count of the loaded library, and the
reference count of a scan plan that its split sets keep alive through finalisers.

Go objects are numbered in order of creation. Closing is idempotent. A split set is
pinned while some DataSplit of it is reachable; only unpinned sets are finalised, at
any later moment. `base` counts library references that belong to no object (the
loader keeps one).
*/
module GoHandles {
  import opened Options

  datatype Thing =
    | Handle(open: bool)                      // catalog, table, builder, scan, read, writer, messages, ...
    | Reader(natives: nat, readerOpen: bool)        // one native reader per range of splits
    | Batch(held: bool)
    | Plan(refs: int, planOpen: bool, sets: set<nat>, pinned: set<nat>)

  datatype State = State(count: int, loaded: bool, things: seq<Thing>, frees: seq<nat>)

  /** Library references an object owes. */
  function Owed(t: Thing): (n: nat) {
    match t
    case Handle(open) => if open then 1 else 0
    case Reader(natives, open) => if open then natives else 0
    case Batch(held) => if held then 1 else 0
    case Plan(refs, _, _, _) => if refs > 0 then 1 else 0
  }

  function Total(things: seq<Thing>): (n: nat) {
    if things == [] then 0 else Owed(things[|things| - 1]) + Total(things[..|things| - 1])
  }

  // ------------------------------------------------------------------ steps

  datatype Op =
    | Load
    | NewHandle(parent: nat, nativeOk: bool)
    | CloseHandle(h: nat)
    | PrepareFixedBucket(writer: nat, nativeOk: bool)
    | NewPlan(scan: nat, nativeOk: bool)
    | Splits(plan: nat, id: nat)
    | ClosePlan(plan: nat)
    | Unpin(plan: nat, id: nat)
    | Finalise(plan: nat, id: nat)
    | NewReader(read: nat, ranges: nat, failAt: nat)   // fails at range `failAt` if there is one
    | NextBatch(reader: nat)
    | ReleaseBatch(batch: nat)
    | CloseReader(reader: nat)

  function Acquire(s: State, n: nat): (r: State) { s.(count := s.count + n) }

  /** Giving references back one by one; the library goes when the count reaches zero. */
  function Release(s: State, n: nat): (r: State)
    decreases n
  {
    if n == 0 then s else
      var t := s.(count := s.count - 1, loaded := s.loaded && s.count != 1);
      Release(t, n - 1)
  }

  predicate IsOpen(s: State, i: nat) { i < |s.things| && s.things[i].Handle? && s.things[i].open }

  function Set(s: State, i: nat, t: Thing): (r: State)
    requires i < |s.things|
  {
    s.(things := s.things[i := t])
  }

  function Add(s: State, t: Thing): (r: State) { s.(things := s.things + [t]) }

  /** Dropping one reference to a plan; at zero the native plan and its library
      reference go. */
  function ReleasePlan(s: State, i: nat, p: Thing): (r: State)
    requires i < |s.things| && p.Plan?
  {
    var q := p.(refs := p.refs - 1);
    var t := Set(s, i, q);
    if q.refs == 0 then Release(t.(frees := t.frees + [i]), 1) else t
  }

  function Apply(s: State, op: Op): (r: State) {
    match op
    case Load => if s.loaded then Add(Acquire(s, 1), Handle(true)) else s
    case NewHandle(parent, ok) => if IsOpen(s, parent) && ok then Add(Acquire(s, 1), Handle(true)) else s
    case CloseHandle(h) => if IsOpen(s, h) then Release(Set(s, h, Handle(false)), 1) else s
    case PrepareFixedBucket(w, ok) =>
      if !IsOpen(s, w) then s
      else if !ok then Release(Set(s, w, Handle(false)), 1)
      else Add(Release(Set(Acquire(s, 1), w, Handle(false)), 1), Handle(true))
    case NewPlan(scan, ok) => if IsOpen(s, scan) && ok then Add(Acquire(s, 1), Plan(1, true, {}, {})) else s
    case Splits(i, id) =>
      if i < |s.things| && s.things[i].Plan? && s.things[i].planOpen && id !in s.things[i].sets then
        var p := s.things[i];
        Set(s, i, p.(refs := p.refs + 1, sets := p.sets + {id}, pinned := p.pinned + {id}))
      else s
    case ClosePlan(i) =>
      if i < |s.things| && s.things[i].Plan? && s.things[i].planOpen then ReleasePlan(s, i, s.things[i].(planOpen := false)) else s
    case Unpin(i, id) =>
      if i < |s.things| && s.things[i].Plan? then Set(s, i, s.things[i].(pinned := s.things[i].pinned - {id})) else s
    case Finalise(i, id) =>
      if i < |s.things| && s.things[i].Plan? && id in s.things[i].sets && id !in s.things[i].pinned then
        ReleasePlan(s, i, s.things[i].(sets := s.things[i].sets - {id}))
      else s
    case NewReader(read, n, failAt) =>
      if !IsOpen(s, read) || n == 0 then s
      else if failAt < n then Release(Acquire(s, failAt), failAt)
      else Add(Acquire(s, n), Reader(n, true))
    case NextBatch(r) =>
      if r < |s.things| && s.things[r].Reader? && s.things[r].readerOpen then Add(Acquire(s, 1), Batch(true)) else s
    case ReleaseBatch(b) =>
      if b < |s.things| && s.things[b].Batch? && s.things[b].held then Release(Set(s, b, Batch(false)), 1) else s
    case CloseReader(r) =>
      if r < |s.things| && s.things[r].Reader? && s.things[r].readerOpen then
        Release(Set(s, r, Reader(s.things[r].natives, false)), s.things[r].natives)
      else s
  }

  function Run(s: State, ops: seq<Op>): (r: State)
    decreases |ops|
  {
    if ops == [] then s else Run(Apply(s, ops[0]), ops[1..])
  }

  // -------------------------------------------------------------- invariant

  /** A plan is referenced once while open and once per split set not yet finalised;
      a reader has at least one native reader. */
  predicate WellCounted(t: Thing) {
    && (t.Reader? ==> t.natives > 0)
    && (t.Plan? ==> t.refs == (if t.planOpen then 1 else 0) + |t.sets| && t.pinned <= t.sets)
  }

  predicate Counted(s: State, base: nat) {
    s.count == base + Total(s.things) && s.loaded == (s.count > 0)
  }

  predicate Plans(s: State) {
    && (forall i :: 0 <= i < |s.things| ==> WellCounted(s.things[i]))
    // a native plan is freed once, exactly when nothing refers to it any more
    && (forall k :: 0 <= k < |s.frees| ==> s.frees[k] < |s.things| && s.things[s.frees[k]].Plan? && s.things[s.frees[k]].refs == 0)
    && (forall i :: 0 <= i < |s.things| && s.things[i].Plan? && s.things[i].refs == 0 ==> i in s.frees)
    && (forall k, l :: 0 <= k < l < |s.frees| ==> s.frees[k] != s.frees[l])
  }

  predicate Inv(s: State, base: nat) { Counted(s, base) && Plans(s) }

  lemma {:induction false} TotalUpdate(things: seq<Thing>, i: nat, t: Thing)
    requires i < |things|
    ensures Total(things[i := t]) == Total(things) - Owed(things[i]) + Owed(t)
  {
    hide Owed;
    var n := |things| - 1;
    if i == n {
      assert things[i := t][..n] == things[..n];
    } else {
      TotalUpdate(things[..n], i, t);
      assert things[i := t][..n] == things[..n][i := t];
    }
  }

  lemma TotalAppend(things: seq<Thing>, t: Thing)
    ensures Total(things + [t]) == Total(things) + Owed(t)
  {
    assert (things + [t])[..|things|] == things;
  }

  lemma {:induction false} TotalCovers(things: seq<Thing>, i: nat)
    requires i < |things|
    ensures Total(things) >= Owed(things[i])
  {
    hide Owed;
    if i < |things| - 1 { TotalCovers(things[..|things| - 1], i); }
  }

  lemma {:induction false} ReleaseCounts(s: State, n: nat)
    requires n <= s.count && s.loaded == (s.count > 0)
    ensures Release(s, n) == s.(count := s.count - n, loaded := s.count - n > 0)
    decreases n
  {
    if n > 0 { ReleaseCounts(s.(count := s.count - 1, loaded := s.loaded && s.count != 1), n - 1); }
  }

  /** Replacing an object and returning what it no longer owes keeps the books. */
  lemma SettleKeeps(s: State, base: nat, i: nat, t: Thing, n: nat)
    requires Counted(s, base) && i < |s.things| && Owed(t) + n == Owed(s.things[i])
    ensures Counted(Release(Set(s, i, t), n), base)
    ensures Release(Set(s, i, t), n).things == s.things[i := t] && Release(Set(s, i, t), n).frees == s.frees
  {
    hide Release, Owed, Total;
    TotalCovers(s.things, i);
    TotalUpdate(s.things, i, t);
    ReleaseCounts(Set(s, i, t), n);
  }

  lemma AddKeeps(s: State, base: nat, t: Thing)
    requires Inv(s, base) && WellCounted(t) && (t.Plan? ==> t.refs > 0) && (Owed(t) > 0 ==> s.loaded)
    ensures Inv(Add(Acquire(s, Owed(t)), t), base)
  {
    hide Total, Owed;
    TotalAppend(s.things, t);
  }

  lemma PlansUpdate(s: State, i: nat, t: Thing)
    requires Plans(s) && i < |s.things| && WellCounted(t) && t.Plan? == s.things[i].Plan?
    requires t.Plan? ==> (t.refs == 0) == (s.things[i].refs == 0)
    ensures Plans(s.(things := s.things[i := t]))
  {
    hide WellCounted;
    var s' := s.(things := s.things[i := t]);
    assert forall k :: 0 <= k < |s'.things| ==> WellCounted(s'.things[k]);
  }

  lemma SimpleKeeps(s: State, base: nat, i: nat, t: Thing)
    requires Inv(s, base) && i < |s.things| && !t.Plan? && !s.things[i].Plan? && Owed(t) == 0 && WellCounted(t)
    ensures Inv(Release(Set(s, i, t), Owed(s.things[i])), base)
  {
    hide Release, Owed, Total;
    SettleKeeps(s, base, i, t, Owed(s.things[i]));
    PlansUpdate(s, i, t);
    var r := Release(Set(s, i, t), Owed(s.things[i]));
    hide Plans;
    PlansDepend(s.(things := s.things[i := t]), r);
  }

  lemma PlansDepend(s: State, r: State)
    requires s.things == r.things && s.frees == r.frees
    ensures Plans(s) == Plans(r)
  {
  }

  /** Dropping a plan reference, with the plan's own books already adjusted. */
  lemma ReleasePlanKeeps(s: State, base: nat, i: nat, p: Thing)
    requires Inv(s, base) && i < |s.things| && s.things[i].Plan? && p.Plan? && p.refs == s.things[i].refs > 0
    requires WellCounted(p.(refs := p.refs - 1))
    ensures Inv(ReleasePlan(s, i, p), base)
  {
    hide Release, Total, WellCounted;
    var q := p.(refs := p.refs - 1);
    if q.refs == 0 {
      var f := s.(frees := s.frees + [i]);
      SettleKeeps(f, base, i, q, 1);
      FreedOnce(s, i, q);
      hide Plans;
      PlansDepend(f.(things := s.things[i := q]), ReleasePlan(s, i, p));
    } else {
      SettleKeeps(s, base, i, q, 0);
      NothingReleased(Set(s, i, q));
      PlansUpdate(s, i, q);
    }
  }

  lemma NothingReleased(s: State)
    ensures Release(s, 0) == s
  {
  }

  lemma FreedOnce(s: State, i: nat, q: Thing)
    requires Plans(s) && i < |s.things| && s.things[i].Plan? && s.things[i].refs > 0 && q.Plan? && q.refs == 0 && WellCounted(q)
    ensures Plans(s.(frees := s.frees + [i], things := s.things[i := q]))
  {
    hide WellCounted;
    assert forall k :: 0 <= k < |s.frees| ==> s.frees[k] != i;
    var t := s.(frees := s.frees + [i], things := s.things[i := q]);
    assert t.frees[|s.frees|] == i;
    forall j | 0 <= j < |t.things| && t.things[j].Plan? && t.things[j].refs == 0 ensures j in t.frees {
      if j != i { assert j in s.frees; }
    }
  }

  lemma HandlesKeep(s: State, base: nat, op: Op)
    requires Inv(s, base) && (op.Load? || op.NewHandle? || op.CloseHandle? || op.NewPlan? || op.PrepareFixedBucket?)
    ensures Inv(Apply(s, op), base)
  {
    hide Total, Release, Plans;
    match op
    case Load => if s.loaded { AddKeeps(s, base, Handle(true)); }
    case NewHandle(p, ok) => if IsOpen(s, p) { TotalCovers(s.things, p); AddKeeps(s, base, Handle(true)); }
    case NewPlan(p, ok) => if IsOpen(s, p) { TotalCovers(s.things, p); AddKeeps(s, base, Plan(1, true, {}, {})); }
    case CloseHandle(h) => if IsOpen(s, h) { SimpleKeeps(s, base, h, Handle(false)); }
    case PrepareFixedBucket(w, ok) => if IsOpen(s, w) { PrepareKeeps(s, base, w, ok); }
  }

  /** The writer's reference is returned only after the messages took theirs. */
  lemma PrepareKeeps(s: State, base: nat, w: nat, ok: bool)
    requires Inv(s, base) && IsOpen(s, w)
    ensures Inv(Apply(s, PrepareFixedBucket(w, ok)), base)
  {
    hide Total, Plans;
    SimpleKeeps(s, base, w, Handle(false));
    if ok {
      TotalCovers(s.things, w);
      var held := Release(Set(Acquire(s, 1), w, Handle(false)), 1);
      ReleaseCounts(Set(Acquire(s, 1), w, Handle(false)), 1);
      ReleaseCounts(Set(s, w, Handle(false)), 1);
      TotalUpdate(s.things, w, Handle(false));
      TotalAppend(s.things[w := Handle(false)], Handle(true));
      PlansUpdate(s, w, Handle(false));
      PlansAppend(s.(things := s.things[w := Handle(false)]), Handle(true));
      PlansDepend(s.(things := s.things[w := Handle(false)] + [Handle(true)]), Apply(s, PrepareFixedBucket(w, ok)));
    }
  }

  lemma PlansAppend(s: State, t: Thing)
    requires Plans(s) && !t.Plan? && WellCounted(t)
    ensures Plans(s.(things := s.things + [t]))
  {
  }

  lemma PlanOpsKeep(s: State, base: nat, op: Op)
    requires Inv(s, base) && (op.Splits? || op.ClosePlan? || op.Unpin? || op.Finalise?)
    ensures Inv(Apply(s, op), base)
  {
    hide Inv, Apply;
    match op
    case Splits(i, id) => SplitsKeep(s, base, i, id);
    case ClosePlan(i) => ClosePlanKeeps(s, base, i);
    case Unpin(i, id) => UnpinKeeps(s, base, i, id);
    case Finalise(i, id) => FinaliseKeeps(s, base, i, id);
  }

  lemma SplitsKeep(s: State, base: nat, i: nat, id: nat)
    requires Inv(s, base)
    ensures Inv(Apply(s, Splits(i, id)), base)
  {
    hide Total, Release, ReleasePlan, Plans;
    if i < |s.things| && s.things[i].Plan? && s.things[i].planOpen && id !in s.things[i].sets {
      var p := s.things[i];
      EachCounted(s, i);
      var q := p.(refs := p.refs + 1, sets := p.sets + {id}, pinned := p.pinned + {id});
      TotalUpdate(s.things, i, q);
      PlansUpdate(s, i, q);
    }
  }

  lemma EachCounted(s: State, i: nat)
    requires Plans(s) && i < |s.things|
    ensures WellCounted(s.things[i])
  {
  }

  lemma UnpinKeeps(s: State, base: nat, i: nat, id: nat)
    requires Inv(s, base)
    ensures Inv(Apply(s, Unpin(i, id)), base)
  {
    hide Total, Release, ReleasePlan, Plans;
    if i < |s.things| && s.things[i].Plan? {
      EachCounted(s, i);
      var q := s.things[i].(pinned := s.things[i].pinned - {id});
      TotalUpdate(s.things, i, q);
      PlansUpdate(s, i, q);
    }
  }

  lemma ClosePlanKeeps(s: State, base: nat, i: nat)
    requires Inv(s, base)
    ensures Inv(Apply(s, ClosePlan(i)), base)
  {
    hide Total, Release, ReleasePlan, Plans;
    if i < |s.things| && s.things[i].Plan? && s.things[i].planOpen {
      EachCounted(s, i);
      ReleasePlanKeeps(s, base, i, s.things[i].(planOpen := false));
    }
  }

  lemma FinaliseKeeps(s: State, base: nat, i: nat, id: nat)
    requires Inv(s, base)
    ensures Inv(Apply(s, Finalise(i, id)), base)
  {
    hide Total, Release, ReleasePlan, Plans;
    if i < |s.things| && s.things[i].Plan? && id in s.things[i].sets && id !in s.things[i].pinned {
      EachCounted(s, i);
      ReleasePlanKeeps(s, base, i, s.things[i].(sets := s.things[i].sets - {id}));
    }
  }

  lemma ReadersKeep(s: State, base: nat, op: Op)
    requires Inv(s, base) && (op.NewReader? || op.NextBatch? || op.ReleaseBatch? || op.CloseReader?)
    ensures Inv(Apply(s, op), base)
  {
    hide Total, Release, Plans;
    match op
    case NewReader(read, n, failAt) =>
      if IsOpen(s, read) && n > 0 {
        TotalCovers(s.things, read);
        if failAt < n {
          ReleaseCounts(Acquire(s, failAt), failAt);
        } else {
          AddKeeps(s, base, Reader(n, true));
        }
      }
    case NextBatch(r) =>
      if r < |s.things| && s.things[r].Reader? && s.things[r].readerOpen {
        EachCounted(s, r);
        TotalCovers(s.things, r);
        AddKeeps(s, base, Batch(true));
      }
    case ReleaseBatch(b) =>
      if b < |s.things| && s.things[b].Batch? && s.things[b].held { SimpleKeeps(s, base, b, Batch(false)); }
    case CloseReader(r) =>
      if r < |s.things| && s.things[r].Reader? && s.things[r].readerOpen { EachCounted(s, r); SimpleKeeps(s, base, r, Reader(s.things[r].natives, false)); }
  }

  lemma ApplyKeeps(s: State, base: nat, op: Op)
    requires Inv(s, base)
    ensures Inv(Apply(s, op), base)
  {
    hide Inv, Apply;
    if op.Load? || op.NewHandle? || op.CloseHandle? || op.NewPlan? || op.PrepareFixedBucket? {
      HandlesKeep(s, base, op);
    } else if op.Splits? || op.ClosePlan? || op.Unpin? || op.Finalise? {
      PlanOpsKeep(s, base, op);
    } else {
      ReadersKeep(s, base, op);
    }
  }

  lemma {:induction false} RunKeeps(s: State, base: nat, ops: seq<Op>)
    requires Inv(s, base)
    ensures Inv(Run(s, ops), base)
    decreases |ops|
  {
    hide Inv, Apply;
    if ops != [] {
      ApplyKeeps(s, base, ops[0]);
      RunKeeps(Apply(s, ops[0]), base, ops[1..]);
    }
  }

  // --------------------------------------------------------------- theorems

  function Start(base: nat): (s: State) { State(base, base > 0, [], []) }

  /** In every reachable state the count is the loader's references plus what the live
      objects owe, so the library is loaded whenever an object could still call it, and
      it is unloaded exactly when nobody holds a reference. */
  lemma LibraryConserved(base: nat, ops: seq<Op>)
    ensures var s := Run(Start(base), ops);
      && s.count == base + Total(s.things)
      && (s.loaded <==> s.count > 0)
      && (forall i :: 0 <= i < |s.things| && Owed(s.things[i]) > 0 ==> s.loaded)
      && (s.count == base <==> forall i :: 0 <= i < |s.things| ==> Finished(s.things[i]))
  {
    AllGivenBack(base, ops);
    hide Run, Owed, Total, Finished;
    StartInv(base);
    RunKeeps(Start(base), base, ops);
    var s := Run(Start(base), ops);
    forall i | 0 <= i < |s.things| && Owed(s.things[i]) > 0 ensures s.loaded { TotalCovers(s.things, i); }
  }

  lemma StartInv(base: nat)
    ensures Inv(Start(base), base)
  {
  }

  /** However Splits, Close and finalisers interleave: the native plan is freed at most
      once, and it exists exactly while the plan is open or a split set is waiting for its
      finaliser, so always while a DataSplit is reachable. */
  lemma PlanLifetime(base: nat, ops: seq<Op>, i: nat)
    requires i < |Run(Start(base), ops).things| && Run(Start(base), ops).things[i].Plan?
    ensures var s := Run(Start(base), ops); var p := s.things[i];
      && p.refs == (if p.planOpen then 1 else 0) + |p.sets|
      && (i in s.frees <==> !p.planOpen && p.sets == {})
      && (p.planOpen || p.pinned != {} ==> i !in s.frees)
      && (forall k, l :: 0 <= k < l < |s.frees| ==> s.frees[k] != s.frees[l])
  {
    hide Run;
    StartInv(base);
    RunKeeps(Start(base), base, ops);
    var s := Run(Start(base), ops);
    assert WellCounted(s.things[i]);
  }

  // ---------------------------------------------------- what each step does

  /** The object has not been closed, released or, for a plan, closed. */
  predicate Live(t: Thing) {
    match t
    case Handle(open) => open
    case Reader(_, open) => open
    case Batch(held) => held
    case Plan(_, open, _, _) => open
  }

  /** The steps that end object `i`, given what it is. */
  predicate Ends(op: Op, t: Thing, i: nat) {
    match t
    case Handle(_) => op == CloseHandle(i) || (op.PrepareFixedBucket? && op.writer == i)
    case Reader(_, _) => op == CloseReader(i)
    case Batch(_) => op == ReleaseBatch(i)
    case Plan(_, _, _, _) => op == ClosePlan(i)
  }

  predicate SameKind(t: Thing, u: Thing) {
    match t
    case Handle(_) => u.Handle?
    case Reader(n, _) => u.Reader? && u.natives == n
    case Batch(_) => u.Batch?
    case Plan(_, _, _, _) => u.Plan?
  }

  predicate LiveAt(s: State, i: nat) { i < |s.things| && Live(s.things[i]) }

  /** What a step creates, if it creates anything. */
  function Creates(s: State, op: Op): (t: Option<Thing>) {
    match op
    case Load => if s.loaded then Some(Handle(true)) else None
    case NewHandle(p, ok) => if LiveAt(s, p) && s.things[p].Handle? && ok then Some(Handle(true)) else None
    case PrepareFixedBucket(w, ok) => if LiveAt(s, w) && s.things[w].Handle? && ok then Some(Handle(true)) else None
    case NewPlan(p, ok) => if LiveAt(s, p) && s.things[p].Handle? && ok then Some(Plan(1, true, {}, {})) else None
    case NewReader(p, n, failAt) => if LiveAt(s, p) && s.things[p].Handle? && 0 < n <= failAt then Some(Reader(n, true)) else None
    case NextBatch(r) => if LiveAt(s, r) && s.things[r].Reader? then Some(Batch(true)) else None
    case _ => None
  }

  /** A step adds what it creates at the end and nothing else. An object there before is
      live after the step exactly if it was and the step does not end it. */
  ghost predicate Stepped(s: State, op: Op, i: nat, t: State) {
    var made := Creates(s, op);
    && |t.things| == |s.things| + (if made.Some? then 1 else 0)
    && (made.Some? ==> t.things[|s.things|] == made.value)
    && (i < |s.things| ==>
          && SameKind(s.things[i], t.things[i])
          && (Live(t.things[i]) <==> Live(s.things[i]) && !Ends(op, s.things[i], i)))
  }

  lemma StepIs(s: State, op: Op, i: nat)
    ensures Stepped(s, op, i, Apply(s, op))
  {
    if op.CloseHandle? || op.PrepareFixedBucket? || op.ReleaseBatch? || op.CloseReader? {
      EndingStep(s, op, i);
    } else if op.ClosePlan? || op.Finalise? {
      PlanStep(s, op, i);
    } else {
      if op.NewReader? { ReleaseKeepsThings(Acquire(s, op.failAt), op.failAt); }
      hide Release;
    }
  }

  lemma EndingStep(s: State, op: Op, i: nat)
    requires op.CloseHandle? || op.PrepareFixedBucket? || op.ReleaseBatch? || op.CloseReader?
    ensures Stepped(s, op, i, Apply(s, op))
  {
    hide Release;
    match op
    case CloseHandle(h) => if h < |s.things| { ReleaseKeepsThings(Set(s, h, Handle(false)), 1); }
    case PrepareFixedBucket(w, _) =>
      if w < |s.things| {
        ReleaseKeepsThings(Set(s, w, Handle(false)), 1);
        ReleaseKeepsThings(Set(Acquire(s, 1), w, Handle(false)), 1);
      }
    case ReleaseBatch(b) => if b < |s.things| { ReleaseKeepsThings(Set(s, b, Batch(false)), 1); }
    case CloseReader(r) =>
      if r < |s.things| && s.things[r].Reader? {
        ReleaseKeepsThings(Set(s, r, Reader(s.things[r].natives, false)), s.things[r].natives);
      }
  }

  lemma PlanStep(s: State, op: Op, i: nat)
    requires op.ClosePlan? || op.Finalise?
    ensures Stepped(s, op, i, Apply(s, op))
  {
    hide ReleasePlan;
    match op
    case ClosePlan(p) => if IsPlan(s, p) { ReleasePlanIs(s, p, s.things[p].(planOpen := false)); }
    case Finalise(p, id) => if IsPlan(s, p) { ReleasePlanIs(s, p, s.things[p].(sets := s.things[p].sets - {id})); }
  }

  lemma {:induction false} ReleaseKeepsThings(s: State, n: nat)
    ensures Release(s, n).things == s.things && Release(s, n).frees == s.frees
    decreases n
  {
    if n > 0 { ReleaseKeepsThings(s.(count := s.count - 1, loaded := s.loaded && s.count != 1), n - 1); }
  }

  lemma ReleasePlanIs(s: State, i: nat, p: Thing)
    requires i < |s.things| && p.Plan?
    ensures ReleasePlan(s, i, p).things == s.things[i := p.(refs := p.refs - 1)]
  {
    hide Release;
    var q := p.(refs := p.refs - 1);
    ReleaseKeepsThings(Set(s, i, q).(frees := s.frees + [i]), 1);
  }

  /** A split set waits for its finaliser from the Splits call that made it until it is
      finalised, which only an unpinned one is; it is pinned until the caller lets go. */
  lemma SetsStep(s: State, op: Op, i: nat, id: nat)
    requires IsPlan(s, i)
    ensures var t := Apply(s, op); var p := s.things[i];
      && IsPlan(t, i)
      && (id in t.things[i].sets <==>
            (id in p.sets && !(op == Finalise(i, id) && id !in p.pinned)) || (op == Splits(i, id) && p.planOpen))
      && (id in t.things[i].pinned <==>
            (id in p.pinned && op != Unpin(i, id)) || (op == Splits(i, id) && p.planOpen && id !in p.sets))
  {
    StepIs(s, op, i);
    hide Release;
    match op
    case Splits(k, _) => assert k != i ==> Apply(s, op).things[i] == s.things[i];
    case Unpin(k, _) => assert k != i ==> Apply(s, op).things[i] == s.things[i];
    case ClosePlan(k) => if IsPlan(s, k) { ReleasePlanIs(s, k, s.things[k].(planOpen := false)); hide ReleasePlan; }
    case Finalise(k, x) => if IsPlan(s, k) { ReleasePlanIs(s, k, s.things[k].(sets := s.things[k].sets - {x})); hide ReleasePlan; }
    case _ => OthersKeepPlans(s, op, i);
  }

  lemma OthersKeepPlans(s: State, op: Op, i: nat)
    requires IsPlan(s, i) && !op.Splits? && !op.Unpin? && !op.ClosePlan? && !op.Finalise?
    ensures i < |Apply(s, op).things| && Apply(s, op).things[i] == s.things[i]
  {
    hide Release;
    match op
    case CloseHandle(h) => if h < |s.things| { ReleaseKeepsThings(Set(s, h, Handle(false)), 1); }
    case PrepareFixedBucket(w, _) =>
      if w < |s.things| {
        ReleaseKeepsThings(Set(s, w, Handle(false)), 1);
        ReleaseKeepsThings(Set(Acquire(s, 1), w, Handle(false)), 1);
      }
    case NewReader(_, n, failAt) => ReleaseKeepsThings(Acquire(s, failAt), failAt);
    case ReleaseBatch(b) => if b < |s.things| { ReleaseKeepsThings(Set(s, b, Batch(false)), 1); }
    case CloseReader(r) =>
      if r < |s.things| && s.things[r].Reader? {
        ReleaseKeepsThings(Set(s, r, Reader(s.things[r].natives, false)), s.things[r].natives);
      }
    case _ =>
  }

  // ------------------------------------------------------ over whole runs

  /** Object `i` is made by step `j` of the run, as `t`. */
  ghost predicate BornAs(s: State, ops: seq<Op>, j: nat, i: nat, t: Thing) {
    j < |ops| && |Run(s, ops[..j]).things| == i && Creates(Run(s, ops[..j]), ops[j]) == Some(t)
  }

  predicate Spared(ops: seq<Op>, j: nat, t: Thing, i: nat) { forall k :: j < k < |ops| ==> !Ends(ops[k], t, i) }

  /** After any run there is an object `i` exactly if some step made it. */
  lemma {:induction false} ObjectIsBorn(base: nat, ops: seq<Op>, i: nat)
    ensures i < |Run(Start(base), ops).things| <==> exists j: nat, t :: BornAs(Start(base), ops, j, i, t)
    decreases |ops|
  {
    hide Run, Apply, Creates;
    var start := Start(base);
    if ops == [] {
      NothingRun(start);
    } else {
      var n := |ops| - 1;
      var before := ops[..n];
      ObjectIsBorn(base, before, i);
      RunLast(start, ops);
      var s, made := Run(start, before), Creates(Run(start, before), ops[n]);
      StepIs(s, ops[n], i);
      forall j: nat, t | j < n ensures BornAs(start, ops, j, i, t) == BornAs(start, before, j, i, t) {
        assert before[..j] == ops[..j];
      }
      if i < |s.things| {
        var j: nat, t :| BornAs(start, before, j, i, t);
        assert BornAs(start, ops, j, i, t);
      } else if i == |s.things| && made.Some? {
        assert BornAs(start, ops, n, i, made.value);
      }
    }
  }

  /** It is then of the kind that step made it, and live exactly if no later step ended it. */
  lemma {:induction false} ObjectLives(base: nat, ops: seq<Op>, i: nat, j: nat, t: Thing)
    requires BornAs(Start(base), ops, j, i, t)
    ensures var s := Run(Start(base), ops);
      i < |s.things| && SameKind(t, s.things[i]) && (Live(s.things[i]) <==> Spared(ops, j, t, i))
    decreases |ops|
  {
    hide Run, Apply, Creates, Live, Ends, SameKind;
    var start := Start(base);
    var n := |ops| - 1;
    var before := ops[..n];
    RunLast(start, ops);
    StepIs(Run(start, before), ops[n], i);
    if j == n {
      CreatedIsLive(Run(start, before), ops[n]);
    } else {
      assert before[..j] == ops[..j];
      ObjectLives(base, before, i, j, t);
      KindsAgree(t, Run(start, before).things[i], Run(start, ops).things[i], ops[n], i);
    }
  }

  lemma CreatedIsLive(s: State, op: Op)
    ensures Creates(s, op).Some? ==> Live(Creates(s, op).value) && SameKind(Creates(s, op).value, Creates(s, op).value)
  {
  }

  lemma KindsAgree(t: Thing, u: Thing, v: Thing, op: Op, i: nat)
    requires SameKind(t, u) && SameKind(u, v)
    ensures SameKind(t, v) && Ends(op, t, i) == Ends(op, u, i)
  {
  }

  lemma NothingRun(s: State)
    ensures Run(s, []) == s
  {
  }

  lemma RunLast(s: State, ops: seq<Op>)
    requires ops != []
    ensures Run(s, ops) == Apply(Run(s, ops[..|ops| - 1]), ops[|ops| - 1])
  {
    hide Apply;
    var n := |ops| - 1;
    RunAppend(s, ops[..n], [ops[n]]);
    assert ops == ops[..n] + [ops[n]] && [ops[n]][1..] == [];
  }

  /** Closed, released, or for a plan closed with every split set finalised. */
  predicate Finished(t: Thing) { !Live(t) && (t.Plan? ==> t.sets == {}) }

  /** What a live object owes: nothing once it is finished; else a reader one reference per
      range and everything else one. */
  lemma OwesUntilFinished(t: Thing)
    requires WellCounted(t)
    ensures Owed(t) == if Finished(t) then 0 else if t.Reader? then t.natives else 1
  {
  }

  /** After any run the count is back at the loader's references exactly if every object is
      finished, and the library is then unloaded exactly if the loader holds none. */
  lemma AllGivenBack(base: nat, ops: seq<Op>)
    ensures var s := Run(Start(base), ops);
      && (s.count == base <==> forall i :: 0 <= i < |s.things| ==> Finished(s.things[i]))
      && (s.count == base ==> (s.loaded <==> base > 0))
  {
    hide Run, Total, Finished;
    StartInv(base);
    RunKeeps(Start(base), base, ops);
    var s := Run(Start(base), ops);
    forall i | 0 <= i < |s.things| ensures Finished(s.things[i]) <==> Owed(s.things[i]) == 0 {
      EachCounted(s, i);
      OwesUntilFinished(s.things[i]);
    }
    hide Owed;
    TotalZero(s.things);
  }

  lemma {:induction false} TotalZero(things: seq<Thing>)
    ensures Total(things) == 0 <==> forall i :: 0 <= i < |things| ==> Owed(things[i]) == 0
  {
    hide Owed;
    if things != [] { TotalZero(things[..|things| - 1]); }
  }

  /** Making an object takes the references it owes: a reader one per range. */
  lemma CreatingTakes(s: State, base: nat, op: Op)
    requires Inv(s, base) && Creates(s, op).Some? && !op.PrepareFixedBucket?
    ensures Apply(s, op).count == s.count + Owed(Creates(s, op).value)
    ensures Owed(Creates(s, op).value) == if op.NewReader? then op.ranges else 1
  {
  }

  /** A reader that cannot be made leaves everything as it was. */
  lemma FailedReader(s: State, base: nat, op: Op)
    requires Inv(s, base) && op.NewReader? && Creates(s, op).None?
    ensures Apply(s, op) == s
  {
    hide Release, Plans;
    if IsOpen(s, op.read) {
      TotalCovers(s.things, op.read);
      ReleaseCounts(Acquire(s, op.failAt), op.failAt);
    }
  }

  /** Ending a live object gives back exactly what it owed and leaves it owing nothing. */
  lemma EndingGivesBack(s: State, base: nat, op: Op, i: nat)
    requires Inv(s, base) && LiveAt(s, i) && !s.things[i].Plan? && Ends(op, s.things[i], i) && !op.PrepareFixedBucket?
    ensures var t := Apply(s, op);
      && |t.things| == |s.things| && Owed(t.things[i]) == 0 && t.count == s.count - Owed(s.things[i])
      && (t.loaded <==> t.count > 0)
      && forall k :: 0 <= k < |s.things| && k != i ==> t.things[k] == s.things[k]
  {
    hide Release, Plans;
    TotalCovers(s.things, i);
    match op
    case CloseHandle(_) => ReleaseCounts(Set(s, i, Handle(false)), 1);
    case CloseReader(_) => ReleaseCounts(Set(s, i, Reader(s.things[i].natives, false)), s.things[i].natives);
    case ReleaseBatch(_) => ReleaseCounts(Set(s, i, Batch(false)), 1);
  }

  /** Preparing ends the writer; its reference goes to the messages, or back if it fails. */
  lemma PrepareTrades(s: State, base: nat, w: nat, ok: bool)
    requires Inv(s, base) && IsOpen(s, w)
    ensures var t := Apply(s, PrepareFixedBucket(w, ok));
      && t.count == s.count - (if ok then 0 else 1) && (t.loaded <==> t.count > 0)
      && w < |t.things| && Owed(t.things[w]) == 0
  {
    hide Release, Plans;
    TotalCovers(s.things, w);
    ReleaseCounts(Set(s, w, Handle(false)), 1);
    ReleaseCounts(Set(Acquire(s, 1), w, Handle(false)), 1);
  }

  /** The native plan and its library reference go exactly with the step that finishes the
      plan, be it the close or the last finaliser. */
  lemma FinishingFrees(s: State, base: nat, op: Op, i: nat)
    requires Inv(s, base) && IsPlan(s, i) && (op.ClosePlan? || op.Finalise?) && op.plan == i
    ensures var t := Apply(s, op); IsPlan(t, i) && var last := Finished(t.things[i]) && !Finished(s.things[i]);
      && t.frees == s.frees + (if last then [i] else [])
      && t.count == s.count - (if last then 1 else 0)
  {
    EachCounted(s, i);
    hide ReleasePlan, Inv;
    var p := s.things[i];
    match op
    case ClosePlan(_) => if p.planOpen { DroppingFrees(s, base, i, p.(planOpen := false)); }
    case Finalise(_, id) => if id in p.sets && id !in p.pinned { DroppingFrees(s, base, i, p.(sets := p.sets - {id})); }
  }

  lemma DroppingFrees(s: State, base: nat, i: nat, p: Thing)
    requires Inv(s, base) && IsPlan(s, i) && p.Plan? && p.refs == s.things[i].refs > 0
    ensures var t := ReleasePlan(s, i, p);
      && t.things == s.things[i := p.(refs := p.refs - 1)]
      && t.frees == s.frees + (if p.refs == 1 then [i] else [])
      && t.count == s.count - (if p.refs == 1 then 1 else 0)
  {
    TotalCovers(s.things, i);
    hide Release, Plans;
    if p.refs == 1 { ReleaseCounts(Set(s, i, p.(refs := 0)).(frees := s.frees + [i]), 1); }
  }

  // ------------------------------------------- a read racing the finalisers

  /** Steps the collector can take on plan `i` while split sets `kept` stay reachable. */
  predicate Collector(ops: seq<Op>, i: nat, kept: set<nat>) {
    forall k :: 0 <= k < |ops| ==>
      (ops[k].Unpin? && ops[k].plan == i && ops[k].id !in kept) || (ops[k].Finalise? && ops[k].plan == i)
  }

  predicate IsPlan(s: State, i: nat) { i < |s.things| && s.things[i].Plan? }

  lemma CollectorStep(s: State, base: nat, i: nat, kept: set<nat>, op: Op)
    requires Inv(s, base) && IsPlan(s, i) && Collector([op], i, kept)
    ensures var t := Apply(s, op);
      && Inv(t, base) && IsPlan(t, i) && t.things[i].planOpen == s.things[i].planOpen
      && (s.things[i].pinned * kept <= t.things[i].pinned)
  {
    ApplyKeeps(s, base, op);
    hide Inv, Release;
    assert [op][0] == op;
    if op.Finalise? { FinaliseEffect(s, i, op.id); }
  }

  lemma FinaliseEffect(s: State, i: nat, id: nat)
    requires IsPlan(s, i)
    ensures var t := Apply(s, Finalise(i, id));
      && |t.things| == |s.things| && t.things[i].Plan?
      && t.things[i].planOpen == s.things[i].planOpen && t.things[i].pinned == s.things[i].pinned
      && (id in s.things[i].sets && id !in s.things[i].pinned ==> t.things[i].sets == s.things[i].sets - {id})
  {
  }

  lemma {:induction false} CollectorRun(s: State, base: nat, i: nat, kept: set<nat>, ops: seq<Op>)
    requires Inv(s, base) && IsPlan(s, i) && Collector(ops, i, kept)
    ensures var t := Run(s, ops);
      && Inv(t, base) && IsPlan(t, i) && t.things[i].planOpen == s.things[i].planOpen
      && (s.things[i].pinned * kept <= t.things[i].pinned)
    decreases |ops|
  {
    hide Inv, Apply;
    if ops != [] {
      assert Collector([ops[0]], i, kept);
      CollectorStep(s, base, i, kept, ops[0]);
      assert forall k :: 0 <= k < |ops[1..]| ==> ops[1..][k] == ops[k + 1];
      CollectorRun(Apply(s, ops[0]), base, i, kept, ops[1..]);
    }
  }

  lemma AliveIff(s: State, base: nat, i: nat)
    requires Inv(s, base) && IsPlan(s, i)
    ensures i in s.frees <==> !s.things[i].planOpen && s.things[i].sets == {}
    ensures s.things[i].pinned <= s.things[i].sets
  {
    assert WellCounted(s.things[i]);
  }

  /** With nobody holding on, the collector can take the plan away. */
  lemma {:induction false} Drain(s: State, base: nat, i: nat, kept: set<nat>) returns (ops: seq<Op>)
    requires Inv(s, base) && IsPlan(s, i) && !s.things[i].planOpen && s.things[i].pinned * kept == {}
    ensures Collector(ops, i, kept) && i in Run(s, ops).frees
    decreases |s.things[i].sets|
  {
    AliveIff(s, base, i);
    hide Inv;
    if |s.things[i].sets| == 0 {
      ops := [];
    } else {
      var id :| id in s.things[i].sets;
      assert id !in s.things[i].pinned * kept;
      var first := if id in s.things[i].pinned then [Unpin(i, id)] else [];
      var t := Run(s, first);
      CollectorRun(s, base, i, kept, first);
      UnpinEffect(s, i, id, first);
      FinaliseEffect(t, i, id);
      var u := Apply(t, Finalise(i, id));
      CollectorStep(t, base, i, kept, Finalise(i, id));
      hide Apply, Collector;
      var rest := Drain(u, base, i, kept);
      DrainCollects(i, kept, id, first, rest);
      RunAppend(s, first, [Finalise(i, id)] + rest);
      assert ([Finalise(i, id)] + rest)[1..] == rest;
      ops := first + ([Finalise(i, id)] + rest);
    }
  }

  lemma DrainCollects(i: nat, kept: set<nat>, id: nat, first: seq<Op>, rest: seq<Op>)
    requires Collector(first, i, kept) && Collector(rest, i, kept)
    ensures Collector(first + ([Finalise(i, id)] + rest), i, kept)
  {
  }

  lemma UnpinEffect(s: State, i: nat, id: nat, first: seq<Op>)
    requires IsPlan(s, i) && first == (if id in s.things[i].pinned then [Unpin(i, id)] else [])
    ensures var t := Run(s, first);
      |t.things| == |s.things| && t.things[i] == s.things[i].(pinned := s.things[i].pinned - {id})
  {
    if first != [] { assert first[1..] == []; }
  }

  lemma {:induction false} RunAppend(s: State, a: seq<Op>, b: seq<Op>)
    ensures Run(s, a + b) == Run(Run(s, a), b)
    decreases |a|
  {
    hide Apply;
    if a == [] {
      assert a + b == b;
    } else {
      RunAppend(Apply(s, a[0]), a[1..], b);
      assert (a + b)[1..] == a[1..] + b;
    }
  }

  /** Creating a reader copies the indices out of its splits and then calls the native
      side once per range. Those calls find the native plan, whatever the collector does
      meanwhile, exactly when the plan is open or the caller keeps some split of it
      reachable until the call returns; the splits passed in do not suffice by themselves. */
  lemma ReadNeedsSomeoneHolding(s: State, base: nat, i: nat, kept: set<nat>)
    requires Inv(s, base) && IsPlan(s, i)
    ensures (forall ops :: Collector(ops, i, kept) ==> i !in Run(s, ops).frees)
       <==> s.things[i].planOpen || s.things[i].pinned * kept != {}
  {
    hide Inv, Collector, Run;
    if s.things[i].planOpen || s.things[i].pinned * kept != {} {
      forall ops | Collector(ops, i, kept) ensures i !in Run(s, ops).frees {
        CollectorRun(s, base, i, kept, ops);
        var t := Run(s, ops);
        AliveIff(t, base, i);
        assert s.things[i].pinned * kept <= t.things[i].pinned <= t.things[i].sets;
      }
    } else {
      var ops := Drain(s, base, i, kept);
    }
  }

  /** A plan closed while a split of it is in use. */
  const CLOSED_PLAN: seq<Op> := [Load, NewPlan(0, true), Splits(1, 0), ClosePlan(1)]

  /** If the caller then drops the split on entering the reader's construction, a
      finaliser frees the plan before the native calls. */
  lemma ReaderLosesItsPlan()
    ensures var s := Run(Start(1), CLOSED_PLAN);
      && IsPlan(s, 1) && !s.things[1].planOpen && s.things[1].pinned == {0} && 1 !in s.frees
      && Collector([Unpin(1, 0), Finalise(1, 0)], 1, {}) && 1 in Run(s, [Unpin(1, 0), Finalise(1, 0)]).frees
  {
    var s2 := Apply(Apply(Start(1), Load), NewPlan(0, true));
    assert s2.things == [Handle(true), Plan(1, true, {}, {})] && s2.frees == [];
    RunTwo(Start(1), CLOSED_PLAN);
    RunTwo(s2, CLOSED_PLAN[2..]);
    CloseUnderSplit(s2);
    var s4 := Apply(Apply(s2, Splits(1, 0)), ClosePlan(1));
    RunTwo(s4, [Unpin(1, 0), Finalise(1, 0)]);
  }

  lemma CloseUnderSplit(s: State)
    requires |s.things| == 2 && s.things[1] == Plan(1, true, {}, {}) && s.frees == []
    ensures var t := Apply(Apply(s, Splits(1, 0)), ClosePlan(1));
      && |t.things| == 2 && t.things[1] == Plan(1, false, {0}, {0}) && t.frees == []
      && Apply(Apply(t, Unpin(1, 0)), Finalise(1, 0)).frees == [1]
  {
    var t1 := Apply(s, Splits(1, 0));
    assert t1.things[1] == Plan(2, true, {0}, {0});
    var t := Apply(t1, ClosePlan(1));
    assert t.things[1] == Plan(1, false, {0}, {0});
    var u := Apply(t, Unpin(1, 0));
    assert u.things[1] == Plan(1, false, {0}, {});
  }

  lemma RunTwo(s: State, ops: seq<Op>)
    requires |ops| >= 2
    ensures Run(s, ops) == Run(Apply(Apply(s, ops[0]), ops[1]), ops[2..])
  {
    hide Apply;
    assert ops[1..][1..] == ops[2..];
  }

  // --------------------------------------------------------- counting code

  class LibRef {
    var count: int
    var loaded: bool

    ghost predicate Valid()
      reads this
    {
      count >= 0 && loaded == (count > 0)
    }

    constructor ()
      ensures Valid() && count == 1
    {
      count, loaded := 1, true;
    }

    method Acquire()
      requires Valid() && loaded
      modifies this
      ensures Valid() && count == old(count) + 1
    {
      count := count + 1;
    }

    method Release()
      requires Valid() && loaded
      modifies this
      ensures Valid() && count == old(count) - 1
    {
      count := count - 1;
      if count == 0 {
        loaded := false;
      }
    }
  }

  /** The loaded library is as counted in `s`. */
  ghost predicate Mirrors(lib: LibRef, s: State)
    reads lib
  {
    lib.count == s.count && lib.loaded == s.loaded
  }

  /** Catalog, table, builder, scan, read, writer, messages or committer. */
  class GoHandle {
    var open: bool

    constructor ()
      ensures open
    {
      open := true;
    }

    /** `closeOnce`: the native object is freed while the library is certainly loaded. */
    method Close(lib: LibRef, ghost s: State, ghost base: nat, ghost i: nat)
      requires Inv(s, base) && Mirrors(lib, s) && i < |s.things| && s.things[i] == Handle(open)
      modifies this, lib
      ensures Mirrors(lib, Apply(s, CloseHandle(i))) && Apply(s, CloseHandle(i)).things[i] == Handle(open)
      ensures !open && lib.count == old(lib.count) - (if old(open) then 1 else 0)
    {
      if open {
        TotalCovers(s.things, i);
        ReleaseCounts(Set(s, i, Handle(false)), 1);
        open := false;
        lib.Release();
      }
    }
  }

  /** One native reader per range, each with its own library reference; if creating
      range `failAt` fails, the readers made so far are freed and their references go
      back. The table read's own reference keeps the library loaded for every native call. */
  method CreateReaders(lib: LibRef, ranges: nat, failAt: nat, ghost s: State, ghost base: nat, ghost read: nat)
    returns (readers: seq<nat>, ok: bool)
    requires Inv(s, base) && Mirrors(lib, s) && IsOpen(s, read)
    modifies lib
    ensures ok == (failAt >= ranges) && lib.count == old(lib.count) + (if ok then ranges else 0)
    ensures ok ==> |readers| == ranges
    ensures var t := Apply(s, NewReader(read, ranges, failAt));
      Mirrors(lib, t) && t.things == (if ok && ranges > 0 then s.things + [Reader(|readers|, true)] else s.things)
  {
    hide Plans;
    TotalCovers(s.things, read);
    ReleaseCounts(Acquire(s, failAt), failAt);
    hide Inv, Release;
    readers := [];
    for r := 0 to ranges
      invariant lib.Valid() && |readers| == r <= failAt && lib.count == old(lib.count) + r
    {
      assert lib.loaded;
      if r == failAt {
        while readers != []
          invariant lib.Valid() && lib.count == old(lib.count) + |readers|
          decreases |readers|
        {
          assert lib.loaded;
          readers := readers[1..];
          lib.Release();
        }
        return [], false;
      }
      lib.Acquire();
      readers := readers + [r];
    }
    ok := true;
  }

  class RecordBatchReader {
    var readers: seq<nat>
    var open: bool

    constructor (made: seq<nat>)
      ensures readers == made && open
    {
      readers, open := made, true;
    }

    /** Frees every native reader and its reference, once. */
    method Close(lib: LibRef, ghost s: State, ghost base: nat, ghost i: nat)
      requires Inv(s, base) && Mirrors(lib, s) && i < |s.things|
      requires open ==> s.things[i] == Reader(|readers|, true)
      requires !open ==> s.things[i].Reader? && !s.things[i].readerOpen
      modifies this, lib
      ensures Mirrors(lib, Apply(s, CloseReader(i)))
      ensures !open && readers == [] && lib.count == old(lib.count) - (if old(open) then old(|readers|) else 0)
    {
      if open {
        hide Plans;
        TotalCovers(s.things, i);
        ReleaseCounts(Set(s, i, Reader(|readers|, false)), |readers|);
        hide Inv, Release;
        ghost var n := |readers|;
        var k := 0;
        while k < |readers|
          invariant k <= |readers| == n && readers == old(readers)
          invariant lib.Valid() && lib.count == old(lib.count) - k >= n - k
        {
          lib.Release();
          k := k + 1;
        }
        open := false;
      }
      readers := [];
    }
  }

  /** A native plan, freed with its library reference when nothing refers to it. */
  class PlanHandle {
    var refs: int
    var freed: bool

    constructor ()
      ensures refs == 1 && !freed
    {
      refs, freed := 1, false;
    }

    method Acquire()
      modifies this
      ensures refs == old(refs) + 1 && freed == old(freed)
    {
      refs := refs + 1;
    }

    /** One reference less: the plan was closed, or a split set of it finalised. */
    method Release(lib: LibRef, ghost s: State, ghost base: nat, ghost i: nat, ghost op: Op)
      requires Inv(s, base) && Mirrors(lib, s) && IsPlan(s, i) && s.things[i].refs == refs && freed == (i in s.frees)
      requires (op == ClosePlan(i) && s.things[i].planOpen)
            || (op.Finalise? && op.plan == i && op.id in s.things[i].sets && op.id !in s.things[i].pinned)
      modifies this, lib
      ensures var t := Apply(s, op); Mirrors(lib, t) && IsPlan(t, i) && t.things[i].refs == refs && freed == (i in t.frees)
    {
      EachCounted(s, i);
      TotalCovers(s.things, i);
      FinishingFrees(s, base, op, i);
      ApplyKeeps(s, base, op);
      LoadedWhileCounted(s, base);
      LoadedWhileCounted(Apply(s, op), base);
      DropIs(s, op, i);
      hide Inv, Apply;
      refs := refs - 1;
      if refs == 0 {
        freed := true;
        lib.Release();
      }
    }
  }

  lemma LoadedWhileCounted(s: State, base: nat)
    requires Inv(s, base)
    ensures s.count >= 0 && s.loaded == (s.count > 0)
  {
  }

  lemma DropIs(s: State, op: Op, i: nat)
    requires IsPlan(s, i) && WellCounted(s.things[i])
    requires (op == ClosePlan(i) && s.things[i].planOpen)
          || (op.Finalise? && op.plan == i && op.id in s.things[i].sets && op.id !in s.things[i].pinned)
    ensures IsPlan(Apply(s, op), i) && WellCounted(Apply(s, op).things[i]) && Apply(s, op).things[i].refs == s.things[i].refs - 1 >= 0
    ensures !Finished(s.things[i]) && (Finished(Apply(s, op).things[i]) <==> Apply(s, op).things[i].refs == 0)
  {
    hide ReleasePlan;
    var p := s.things[i];
    if op.ClosePlan? {
      ReleasePlanIs(s, i, p.(planOpen := false));
    } else {
      ReleasePlanIs(s, i, p.(sets := p.sets - {op.id}));
    }
  }
}
