/** The Go write binding over the native protocol. Builders and committers keep
their own copy of the overwrite flag, and a commit picks its native entry point by
that copy; closing an object frees its native handle once.

A Go object is named by the native handle it was made with.
*/
module GoWrite {
  import opened CommitProtocol
  import opened Options

  const MAX_IDENTIFIER: int := 0x7FFF_FFFF_FFFF_FFFF

  /** `inner` is None once the object is closed. */
  datatype Flagged = Flagged(inner: Option<Handle>, overwrite: bool)

  datatype GoState = GoState(
    native: State,
    builders: map<nat, Flagged>,
    writers: map<nat, Option<Handle>>,
    messages: map<nat, Option<Handle>>,
    committers: map<nat, Flagged>)

  const GO_INIT := GoState(INIT, map[], map[], map[], map[])

  datatype GoOutcome = ErrClosed | Native(outcome: Outcome)

  datatype Style = Plain | WithIdentifier(identifier: int) | Filtered(identifier: int)

  datatype GoOp =
    | GoNewBuilder(table: string, user: Option<string>)
    | GoWithOverwrite(builder: nat)
    | GoNewWrite(builder: nat, coreOk: bool)
    | GoNewCommit(builder: nat, coreOk: bool)
    | GoPrepare(writer: nat, produced: Option<nat>)
    | GoMerge(target: nat, source: Option<nat>)                        // None: a nil source
    | GoCommit(committer: nat, messages: Option<nat>, style: Style, coreOk: bool)
    | GoAbort(committer: nat, messages: Option<nat>, coreOk: bool)
    | GoClose(box: Box, closing: nat)

  function Inner(m: map<nat, Option<Handle>>, g: Option<nat>): (r: Option<Handle>) {
    if g.Some? && g.value in m then m[g.value] else None
  }

  function FlaggedInner(m: map<nat, Flagged>, g: nat): (r: Option<Handle>) {
    if g in m then m[g].inner else None
  }

  /** Dispatch of Commit, CommitWithIdentifier and FilterAndCommitWithIdentifier on
      the committer's own flag. */
  function Dispatch(overwrite: bool, c: Handle, m: Handle, style: Style, coreOk: bool): (op: Op) {
    match style
    case Plain => if overwrite then Overwrite(c, m, false, 0, coreOk) else Commit(c, m, MAX_IDENTIFIER, false, coreOk)
    case WithIdentifier(i) => if overwrite then Overwrite(c, m, true, i, coreOk) else Commit(c, m, i, false, coreOk)
    case Filtered(i) => if overwrite then Overwrite(c, m, true, i, coreOk) else Commit(c, m, i, true, coreOk)
  }

  function GoApply(g: GoState, op: GoOp): (r: (GoState, GoOutcome)) {
    match op
    case GoNewBuilder(table, user) =>
      var (n, out) := Apply(g.native, NewBuilder(Standard, table, user));
      (if out.Created? then g.(native := n, builders := g.builders[out.handle.id := Flagged(Some(out.handle), false)])
       else g.(native := n), Native(out))
    case GoWithOverwrite(b) =>
      var inner := FlaggedInner(g.builders, b);
      if inner.None? then (g, ErrClosed) else
        var (n, out) := Apply(g.native, WithOverwrite(inner.value));
        (if out.Done? then g.(native := n, builders := g.builders[b := g.builders[b].(overwrite := true)])
         else g.(native := n), Native(out))
    case GoNewWrite(b, coreOk) =>
      var inner := FlaggedInner(g.builders, b);
      if inner.None? then (g, ErrClosed) else
        var (n, out) := Apply(g.native, NewWrite(inner.value, coreOk));
        (if out.Created? then g.(native := n, writers := g.writers[out.handle.id := Some(out.handle)])
         else g.(native := n), Native(out))
    case GoNewCommit(b, coreOk) =>
      var inner := FlaggedInner(g.builders, b);
      if inner.None? then (g, ErrClosed) else
        var (n, out) := Apply(g.native, NewCommit(inner.value, coreOk));
        (if out.Created? then
           g.(native := n, committers := g.committers[out.handle.id := Flagged(Some(out.handle), g.builders[b].overwrite)])
         else g.(native := n), Native(out))
    case GoPrepare(w, produced) =>
      var inner := Inner(g.writers, Some(w));
      if inner.None? then (g, ErrClosed) else
        var (n, out) := Apply(g.native, Prepare(inner.value, produced));
        (if out.Created? then g.(native := n, messages := g.messages[out.handle.id := Some(out.handle)])
         else g.(native := n), Native(out))
    case GoMerge(t, src) =>
      var target, source := Inner(g.messages, Some(t)), Inner(g.messages, src);
      if target.None? || source.None? then (g, ErrClosed) else
        var (n, out) := Apply(g.native, Merge(target.value, source.value));
        (g.(native := n), Native(out))
    case GoCommit(c, m, style, coreOk) =>
      var inner, held := FlaggedInner(g.committers, c), Inner(g.messages, m);
      if inner.None? || held.None? then (g, ErrClosed) else
        var (n, out) := Apply(g.native, Dispatch(g.committers[c].overwrite, inner.value, held.value, style, coreOk));
        (g.(native := n), Native(out))
    case GoAbort(c, m, coreOk) =>
      var inner, held := FlaggedInner(g.committers, c), Inner(g.messages, m);
      if inner.None? || held.None? then (g, ErrClosed) else
        var (n, out) := Apply(g.native, Abort(inner.value, held.value, coreOk));
        (g.(native := n), Native(out))
    case GoClose(box, o) => GoCloseObject(g, box, o)
  }

  /** `closeOnce`: free and forget the first time, nothing after. */
  function GoCloseObject(g: GoState, box: Box, o: nat): (r: (GoState, GoOutcome)) {
    match box
    case BuilderBox =>
      var inner := FlaggedInner(g.builders, o);
      if inner.None? then (g, ErrClosed) else
        (g.(native := Apply(g.native, Free(box, inner.value)).0, builders := g.builders[o := g.builders[o].(inner := None)]), Native(Done))
    case WriterBox =>
      var inner := Inner(g.writers, Some(o));
      if inner.None? then (g, ErrClosed) else
        (g.(native := Apply(g.native, Free(box, inner.value)).0, writers := g.writers[o := None]), Native(Done))
    case MessagesBox =>
      var inner := Inner(g.messages, Some(o));
      if inner.None? then (g, ErrClosed) else
        (g.(native := Apply(g.native, Free(box, inner.value)).0, messages := g.messages[o := None]), Native(Done))
    case CommitterBox =>
      var inner := FlaggedInner(g.committers, o);
      if inner.None? then (g, ErrClosed) else
        (g.(native := Apply(g.native, Free(box, inner.value)).0, committers := g.committers[o := g.committers[o].(inner := None)]), Native(Done))
  }

  function GoRun(g: GoState, ops: seq<GoOp>): (r: GoState)
    decreases |ops|
  {
    if ops == [] then g else GoRun(GoApply(g, ops[0]).0, ops[1..])
  }

  // -------------------------------------------------------------- agreement

  /** An open flagged object owns a live native handle whose mode is its flag. */
  predicate FlagAgrees(g: nat, f: Flagged, native: map<Handle, Context>) {
    f.inner.Some? ==> f.inner.value == Handle(Standard, g) && f.inner.value in native && native[f.inner.value].overwrite == f.overwrite
  }

  predicate Owns<T>(g: nat, inner: Option<Handle>, native: map<Handle, T>) {
    inner.Some? ==> inner.value == Handle(Standard, g) && inner.value in native
  }

  /** Go and native agree, handle by handle. */
  predicate Agree(g: GoState) {
    && (forall b :: b in g.builders ==> FlagAgrees(b, g.builders[b], g.native.builders))
    && (forall c :: c in g.committers ==> FlagAgrees(c, g.committers[c], g.native.committers))
    && (forall w :: w in g.writers ==> Owns(w, g.writers[w], g.native.writers))
    && (forall m :: m in g.messages ==> Owns(m, g.messages[m], g.native.messages))
  }

  ghost predicate Fresh(g: GoState) {
    forall h :: h in g.native.builders || h in g.native.committers || h in g.native.writers || h in g.native.messages
      ==> h.id < g.native.next
  }

  ghost predicate Good(g: GoState) { Agree(g) && Fresh(g) }

  lemma NewBuilderKeeps(g: GoState, table: string, user: Option<string>)
    requires Good(g)
    ensures Good(GoApply(g, GoNewBuilder(table, user)).0)
  {
  }

  lemma WithOverwriteKeeps(g: GoState, b: nat)
    requires Good(g)
    ensures Good(GoApply(g, GoWithOverwrite(b)).0)
  {
    if b in g.builders { assert FlagAgrees(b, g.builders[b], g.native.builders); }
  }

  lemma NewWriteKeepsGo(g: GoState, b: nat, coreOk: bool)
    requires Good(g)
    ensures Good(GoApply(g, GoNewWrite(b, coreOk)).0)
  {
    if b in g.builders { assert FlagAgrees(b, g.builders[b], g.native.builders); }
  }

  lemma NewCommitKeepsGo(g: GoState, b: nat, coreOk: bool)
    requires Good(g)
    ensures Good(GoApply(g, GoNewCommit(b, coreOk)).0)
  {
    if b in g.builders { assert FlagAgrees(b, g.builders[b], g.native.builders); }
  }

  lemma PrepareKeepsGo(g: GoState, w: nat, produced: Option<nat>)
    requires Good(g)
    ensures Good(GoApply(g, GoPrepare(w, produced)).0)
  {
    if w in g.writers && g.writers[w].Some? {
      var h := g.writers[w].value;
      assert Owns(w, g.writers[w], g.native.writers);
      PrepareAddsMessages(g.native, h, produced);
      hide Apply, FlagAgrees;
    }
  }

  lemma PrepareAddsMessages(n: State, h: Handle, produced: Option<nat>)
    requires h in n.writers && h.kind.Standard?
    ensures var (r, out) := Apply(n, Prepare(h, produced));
            && r.builders == n.builders && r.committers == n.committers && r.writers == n.writers
            && n.messages.Keys <= r.messages.Keys && n.next <= r.next
            && (out.Created? ==> out.handle == Handle(Standard, n.next) && n.next < r.next && r.messages.Keys == n.messages.Keys + {out.handle})
            && (!out.Created? ==> r == n)
  {
  }

  lemma MergeKeepsGo(g: GoState, t: nat, src: Option<nat>)
    requires Good(g)
    ensures Good(GoApply(g, GoMerge(t, src)).0)
  {
    hide Apply, FlagAgrees, Owns;
    var target, source := Inner(g.messages, Some(t)), Inner(g.messages, src);
    if target.Some? && source.Some? {
      MergeKeepsHandles(g.native, target.value, source.value);
      forall m | m in g.messages
        ensures Owns(m, g.messages[m], Apply(g.native, Merge(target.value, source.value)).0.messages)
      {
        OwnsByKeys(m, g.messages[m], g.native.messages, Apply(g.native, Merge(target.value, source.value)).0.messages);
      }
    }
  }

  lemma MergeKeepsHandles(n: State, t: Handle, src: Handle)
    ensures var r := Apply(n, Merge(t, src)).0;
            && r.builders == n.builders && r.committers == n.committers && r.writers == n.writers
            && r.messages.Keys == n.messages.Keys && r.next == n.next
  {
  }

  lemma OwnsByKeys<T>(g: nat, inner: Option<Handle>, native: map<Handle, T>, native': map<Handle, T>)
    requires native.Keys == native'.Keys
    ensures Owns(g, inner, native) == Owns(g, inner, native')
  {
  }

  /** Handing messages to the core changes no handle. */
  lemma CallsKeepGo(g: GoState, op: GoOp)
    requires Good(g) && (op.GoCommit? || op.GoAbort?)
    ensures Good(GoApply(g, op).0)
  {
    hide Apply, FlagAgrees, Owns, Dispatch;
    var inner, held := FlaggedInner(g.committers, op.committer), Inner(g.messages, op.messages);
    if inner.Some? && held.Some? {
      if op.GoCommit? {
        DispatchIsCall(g.committers[op.committer].overwrite, inner.value, held.value, op.style, op.coreOk);
        CallsChangeNoHandle(g.native, Dispatch(g.committers[op.committer].overwrite, inner.value, held.value, op.style, op.coreOk));
      } else {
        CallsChangeNoHandle(g.native, Abort(inner.value, held.value, op.coreOk));
      }
    }
  }

  lemma DispatchIsCall(overwrite: bool, c: Handle, m: Handle, style: Style, coreOk: bool)
    ensures var op := Dispatch(overwrite, c, m, style, coreOk);
            (if overwrite then op.Overwrite? else op.Commit?) && op.committer == c && op.messages == m && op.coreOk == coreOk
  {
  }

  lemma CloseKeeps(g: GoState, box: Box, o: nat)
    requires Good(g)
    ensures Good(GoCloseObject(g, box, o).0)
  {
    match box
    case BuilderBox => CloseBuilderKeeps(g, o);
    case WriterBox => CloseWriterKeeps(g, o);
    case MessagesBox => CloseMessagesKeeps(g, o);
    case CommitterBox => CloseCommitterKeeps(g, o);
  }

  lemma CloseBuilderKeeps(g: GoState, o: nat)
    requires Good(g)
    ensures Good(GoCloseObject(g, BuilderBox, o).0)
  {
    if o in g.builders { assert FlagAgrees(o, g.builders[o], g.native.builders); }
  }

  lemma CloseWriterKeeps(g: GoState, o: nat)
    requires Good(g)
    ensures Good(GoCloseObject(g, WriterBox, o).0)
  {
    if o in g.writers { assert Owns(o, g.writers[o], g.native.writers); }
  }

  lemma CloseMessagesKeeps(g: GoState, o: nat)
    requires Good(g)
    ensures Good(GoCloseObject(g, MessagesBox, o).0)
  {
    if o in g.messages { assert Owns(o, g.messages[o], g.native.messages); }
  }

  lemma CloseCommitterKeeps(g: GoState, o: nat)
    requires Good(g)
    ensures Good(GoCloseObject(g, CommitterBox, o).0)
  {
    if o in g.committers { assert FlagAgrees(o, g.committers[o], g.native.committers); }
  }

  lemma GoApplyKeeps(g: GoState, op: GoOp)
    requires Good(g)
    ensures Good(GoApply(g, op).0)
  {
    hide Good, Apply, GoCloseObject;
    match op
    case GoNewBuilder(table, user) => NewBuilderKeeps(g, table, user);
    case GoWithOverwrite(b) => WithOverwriteKeeps(g, b);
    case GoNewWrite(b, coreOk) => NewWriteKeepsGo(g, b, coreOk);
    case GoNewCommit(b, coreOk) => NewCommitKeepsGo(g, b, coreOk);
    case GoPrepare(w, produced) => PrepareKeepsGo(g, w, produced);
    case GoMerge(t, src) => MergeKeepsGo(g, t, src);
    case GoCommit(_, _, _, _) => CallsKeepGo(g, op);
    case GoAbort(_, _, _) => CallsKeepGo(g, op);
    case GoClose(box, o) => CloseKeeps(g, box, o);
  }

  /** In every reachable state the Go flags equal the native modes, and no Go object
      names a freed handle. */
  lemma {:induction false} ModesAgree(g: GoState, ops: seq<GoOp>)
    requires Good(g)
    ensures Good(GoRun(g, ops))
    decreases |ops|
  {
    hide Good, GoApply;
    if ops != [] {
      GoApplyKeeps(g, ops[0]);
      ModesAgree(GoApply(g, ops[0]).0, ops[1..]);
    }
  }

  predicate WrongMode(out: GoOutcome) {
    out == Native(Rejected(OverwriteMessagesInCommit)) || out == Native(Rejected(AppendMessagesInOverwrite))
  }

  /** In an agreeing state a Go commit is never turned down for using the wrong entry
      point or a null handle: it is closed, its contexts differ, or it reaches the core.
      It reaches the core exactly when both objects are open and the contexts are equal. */
  lemma CommitOutcome(g: GoState, c: nat, m: Option<nat>, style: Style, coreOk: bool)
    requires Good(g)
    ensures var out := GoApply(g, GoCommit(c, m, style, coreOk)).1;
            var inner, held := FlaggedInner(g.committers, c), Inner(g.messages, m);
            && !WrongMode(out) && out != Native(Rejected(NullPointer))
            && (out == ErrClosed <==> inner.None? || held.None?)
            && (inner.Some? && held.Some? ==> inner.value in g.native.committers && held.value in g.native.messages)
            && (out == Native(CoreOutcome(coreOk)) <==>
                  inner.Some? && held.Some? && g.native.committers[inner.value] == g.native.messages[held.value].context)
  {
    hide Apply, Dispatch;
    var inner, held := FlaggedInner(g.committers, c), Inner(g.messages, m);
    if inner.Some? && held.Some? {
      assert FlagAgrees(c, g.committers[c], g.native.committers);
      assert Owns(m.value, g.messages[m.value], g.native.messages);
      DispatchOutcome(g.native, inner.value, held.value, style, coreOk);
    }
  }

  /** Dispatching on the native mode itself leaves only the context checks. */
  lemma DispatchOutcome(s: State, c: Handle, m: Handle, style: Style, coreOk: bool)
    requires c in s.committers && m in s.messages && c.kind == m.kind == Standard
    ensures var out := Apply(s, Dispatch(s.committers[c].overwrite, c, m, style, coreOk)).1;
            if s.committers[c] == s.messages[m].context then out == CoreOutcome(coreOk)
            else out.Rejected? && out.reason in {DifferentTable, DifferentUser, DifferentMode}
  {
    DispatchIsCall(s.committers[c].overwrite, c, m, style, coreOk);
    hide Dispatch;
  }

  lemma DispatchNotWrong(s: State, c: Handle, m: Handle, style: Style, coreOk: bool)
    requires c in s.committers && c.kind == m.kind == Standard
    ensures !WrongMode(Native(Apply(s, Dispatch(s.committers[c].overwrite, c, m, style, coreOk)).1))
  {
    DispatchIsCall(s.committers[c].overwrite, c, m, style, coreOk);
    hide Dispatch;
  }

  /** The same after any run of Go calls, together with the choice of entry point: the
      overwrite one exactly when the native committer is in overwrite mode. */
  lemma CommitReachesTheRightEntryPoint(ops: seq<GoOp>, c: nat, m: Option<nat>, style: Style, coreOk: bool)
    ensures var g := GoRun(GO_INIT, ops);
            var out := GoApply(g, GoCommit(c, m, style, coreOk)).1;
            var inner, held := FlaggedInner(g.committers, c), Inner(g.messages, m);
            && !WrongMode(out) && out != Native(Rejected(NullPointer))
            && (inner.Some? && held.Some? ==>
                  && inner.value in g.native.committers && held.value in g.native.messages
                  && (out == Native(CoreOutcome(coreOk)) <==>
                        g.native.committers[inner.value] == g.native.messages[held.value].context)
                  && Dispatch(g.committers[c].overwrite, inner.value, held.value, style, coreOk).Overwrite?
                     == g.native.committers[inner.value].overwrite)
  {
    hide GoRun, GoApply;
    ModesAgree(GO_INIT, ops);
    var g := GoRun(GO_INIT, ops);
    CommitOutcome(g, c, m, style, coreOk);
    if c in g.committers { assert FlagAgrees(c, g.committers[c], g.native.committers); }
  }

  // ------------------------------------------------------ nothing is lost

  /** A native handle is held by the open Go object of its number. */
  predicate Holds(g: GoState, box: Box, h: Handle) { OpenHandle(g, box, h.id) == Some(h) }

  function OpenHandle(g: GoState, box: Box, o: nat): (inner: Option<Handle>) {
    match box
    case BuilderBox => FlaggedInner(g.builders, o)
    case WriterBox => Inner(g.writers, Some(o))
    case MessagesBox => Inner(g.messages, Some(o))
    case CommitterBox => FlaggedInner(g.committers, o)
  }

  /** Every native handle is held by exactly the Go object made with it, and an open Go
      object holds a native handle. */
  ghost predicate Kept(g: GoState) { forall box: Box, h :: h in Alive(g.native, box) <==> Holds(g, box, h) }

  /** What each Go call asks of the native side, if it gets that far. */
  function Asked(g: GoState, op: GoOp): (n: Option<Op>) {
    match op
    case GoNewBuilder(table, user) => Some(NewBuilder(Standard, table, user))
    case GoWithOverwrite(b) => OnOpen(FlaggedInner(g.builders, b), h => WithOverwrite(h))
    case GoNewWrite(b, ok) => OnOpen(FlaggedInner(g.builders, b), h => NewWrite(h, ok))
    case GoNewCommit(b, ok) => OnOpen(FlaggedInner(g.builders, b), h => NewCommit(h, ok))
    case GoPrepare(w, produced) => OnOpen(Inner(g.writers, Some(w)), h => Prepare(h, produced))
    case GoMerge(t, src) => OnBoth(Inner(g.messages, Some(t)), Inner(g.messages, src), (h, k) => Merge(h, k))
    case GoCommit(c, m, style, ok) =>
      OnBoth(FlaggedInner(g.committers, c), Inner(g.messages, m), (h, k) => Dispatch(c in g.committers && g.committers[c].overwrite, h, k, style, ok))
    case GoAbort(c, m, ok) => OnBoth(FlaggedInner(g.committers, c), Inner(g.messages, m), (h, k) => Abort(h, k, ok))
    case GoClose(box, o) => OnOpen(OpenHandle(g, box, o), h => Free(box, h))
  }

  function OnOpen(h: Option<Handle>, f: Handle -> Op): (n: Option<Op>) { if h.None? then None else Some(f(h.value)) }

  function OnBoth(h: Option<Handle>, k: Option<Handle>, f: (Handle, Handle) -> Op): (n: Option<Op>) {
    if h.None? || k.None? then None else Some(f(h.value, k.value))
  }

  /** A Go call does what it asks of the native side and no more; on a closed or nil object
      it asks nothing and says so. */
  lemma GoCallIsNative(g: GoState, op: GoOp)
    ensures var (g', out) := GoApply(g, op); var asked := Asked(g, op);
      if asked.None? then g' == g && out == ErrClosed
      else g'.native == Apply(g.native, asked.value).0 && out == Native(Apply(g.native, asked.value).1)
  {
    hide Apply, Dispatch;
    if op.GoClose? { FreeIsDone(g.native, op.box); }
  }

  lemma FreeIsDone(s: State, box: Box)
    ensures forall h :: Apply(s, Free(box, h)).1 == Done
  {
  }

  /** A Go object comes to hold a handle when the call made it, and loses it when the call
      freed it. */
  lemma HoldsStep(g: GoState, op: GoOp, box: Box, h: Handle)
    requires Good(g) && Asked(g, op).Some?
    ensures Holds(GoApply(g, op).0, box, h) <==>
            Made(g.native, Asked(g, op).value, box, h).Some? || (Holds(g, box, h) && Asked(g, op).value != Free(box, h))
  {
    match op
    case GoNewBuilder(_, _) => MakingStep(g, op, box, h);
    case GoNewWrite(_, _) => MakingStep(g, op, box, h);
    case GoNewCommit(_, _) => MakingStep(g, op, box, h);
    case GoPrepare(_, _) => MakingStep(g, op, box, h);
    case GoClose(_, _) => ClosingStep(g, op, box, h);
    case _ => OtherStep(g, op, box, h);
  }

  lemma MakingStep(g: GoState, op: GoOp, box: Box, h: Handle)
    requires Good(g) && Asked(g, op).Some? && (op.GoNewBuilder? || op.GoNewWrite? || op.GoNewCommit? || op.GoPrepare?)
    ensures Holds(GoApply(g, op).0, box, h) <==>
            Made(g.native, Asked(g, op).value, box, h).Some? || (Holds(g, box, h) && Asked(g, op).value != Free(box, h))
  {
    NumberHasNoObject(g, box, h);
    if !op.GoNewBuilder? {
      ParentIsOpen(g, op);
    }
    hide Good;
    match op
    case GoNewBuilder(table, user) => NewBuilderHolds(g, table, user, box, h);
    case GoNewWrite(b, ok) => NewWriteHolds(g, b, ok, box, h);
    case GoNewCommit(b, ok) => NewCommitHolds(g, b, ok, box, h);
    case GoPrepare(w, produced) => PrepareHolds(g, w, produced, box, h);
  }

  lemma NewBuilderHolds(g: GoState, table: string, user: Option<string>, box: Box, h: Handle)
    requires Holds(g, box, h) ==> h.id < g.native.next && h.kind == Standard
    ensures Holds(GoApply(g, GoNewBuilder(table, user)).0, box, h) <==>
            Made(g.native, NewBuilder(Standard, table, user), box, h).Some? || Holds(g, box, h)
  {
  }

  lemma NewWriteHolds(g: GoState, b: nat, coreOk: bool, box: Box, h: Handle)
    requires Holds(g, box, h) ==> h.id < g.native.next && h.kind == Standard
    requires b in g.builders && g.builders[b].inner == Some(Handle(Standard, b)) && Handle(Standard, b) in g.native.builders
    ensures Holds(GoApply(g, GoNewWrite(b, coreOk)).0, box, h) <==>
            Made(g.native, NewWrite(Handle(Standard, b), coreOk), box, h).Some? || Holds(g, box, h)
  {
  }

  lemma NewCommitHolds(g: GoState, b: nat, coreOk: bool, box: Box, h: Handle)
    requires Holds(g, box, h) ==> h.id < g.native.next && h.kind == Standard
    requires b in g.builders && g.builders[b].inner == Some(Handle(Standard, b)) && Handle(Standard, b) in g.native.builders
    ensures Holds(GoApply(g, GoNewCommit(b, coreOk)).0, box, h) <==>
            Made(g.native, NewCommit(Handle(Standard, b), coreOk), box, h).Some? || Holds(g, box, h)
  {
  }

  lemma PrepareHolds(g: GoState, w: nat, produced: Option<nat>, box: Box, h: Handle)
    requires Holds(g, box, h) ==> h.id < g.native.next && h.kind == Standard
    requires w in g.writers && g.writers[w] == Some(Handle(Standard, w)) && Handle(Standard, w) in g.native.writers
    ensures Holds(GoApply(g, GoPrepare(w, produced)).0, box, h) <==>
            Made(g.native, Prepare(Handle(Standard, w), produced), box, h).Some? || Holds(g, box, h)
  {
  }

  /** The next number is not in use. */
  lemma NumberHasNoObject(g: GoState, box: Box, h: Handle)
    requires Good(g)
    ensures Holds(g, box, h) ==> h.id < g.native.next && h.kind == Standard
  {
    OpenIsStandard(g, box, h.id);
  }

  lemma ParentIsOpen(g: GoState, op: GoOp)
    requires Good(g) && Asked(g, op).Some? && (op.GoNewWrite? || op.GoNewCommit? || op.GoPrepare?)
    ensures op.GoPrepare? ==> g.writers[op.writer] == Some(Handle(Standard, op.writer)) && Handle(Standard, op.writer) in g.native.writers
    ensures op.GoNewWrite? || op.GoNewCommit? ==>
              g.builders[op.builder].inner == Some(Handle(Standard, op.builder)) && Handle(Standard, op.builder) in g.native.builders
  {
    if op.GoPrepare? {
      assert Owns(op.writer, g.writers[op.writer], g.native.writers);
    } else {
      assert FlagAgrees(op.builder, g.builders[op.builder], g.native.builders);
    }
  }

  lemma ClosingStep(g: GoState, op: GoOp, box: Box, h: Handle)
    requires Good(g) && op.GoClose? && Asked(g, op).Some?
    ensures Holds(GoApply(g, op).0, box, h) <==> Holds(g, box, h) && Asked(g, op).value != Free(box, h)
    ensures Made(g.native, Asked(g, op).value, box, h).None?
  {
    var o := op.closing;
    OpenIsStandard(g, op.box, o);
    hide Good, GoCloseObject, OpenHandle;
    CloseForgets(g, op.box, o, box, h.id);
  }

  /** Closing forgets the handle of one object. */
  lemma CloseForgets(g: GoState, b: Box, o: nat, box: Box, x: nat)
    ensures OpenHandle(GoCloseObject(g, b, o).0, box, x) == if box == b && x == o then None else OpenHandle(g, box, x)
  {
    hide Apply;
  }

  /** An open object holds the standard handle of its number, and that handle is alive. */
  lemma OpenIsStandard(g: GoState, box: Box, o: nat)
    requires Good(g)
    ensures var inner := OpenHandle(g, box, o);
            (inner.Some? ==> inner == Some(Handle(Standard, o)) && inner.value in Alive(g.native, box))
  {
    match box
    case BuilderBox => if o in g.builders { assert FlagAgrees(o, g.builders[o], g.native.builders); }
    case WriterBox => if o in g.writers { assert Owns(o, g.writers[o], g.native.writers); }
    case MessagesBox => if o in g.messages { assert Owns(o, g.messages[o], g.native.messages); }
    case CommitterBox => if o in g.committers { assert FlagAgrees(o, g.committers[o], g.native.committers); }
  }

  lemma OtherStep(g: GoState, op: GoOp, box: Box, h: Handle)
    requires Asked(g, op).Some? && (op.GoWithOverwrite? || op.GoMerge? || op.GoCommit? || op.GoAbort?)
    ensures Holds(GoApply(g, op).0, box, h) == Holds(g, box, h)
    ensures Made(g.native, Asked(g, op).value, box, h).None? && Asked(g, op).value != Free(box, h)
  {
    hide Apply;
  }

  /** In every reachable state Go objects and native handles correspond one to one, so no
      native handle is ever left without an owner. */
  lemma {:induction false} HandlesAreKept(g: GoState, ops: seq<GoOp>)
    requires Good(g) && Kept(g) && Numbered(g.native)
    ensures Good(GoRun(g, ops)) && Kept(GoRun(g, ops)) && Numbered(GoRun(g, ops).native)
    decreases |ops|
  {
    hide Good, GoApply, Kept, Numbered;
    if ops != [] {
      GoApplyKeeps(g, ops[0]);
      KeptStep(g, ops[0]);
      HandlesAreKept(GoApply(g, ops[0]).0, ops[1..]);
    }
  }

  lemma KeptStep(g: GoState, op: GoOp)
    requires Good(g) && Kept(g) && Numbered(g.native)
    ensures Kept(GoApply(g, op).0) && Numbered(GoApply(g, op).0.native)
  {
    hide Good, GoApply, Asked, Apply, Numbered, Alive, Holds, Made;
    GoCallIsNative(g, op);
    var asked, g' := Asked(g, op), GoApply(g, op).0;
    if asked.Some? {
      StaysNumbered(g.native, asked.value);
      forall box: Box, h ensures h in Alive(g'.native, box) <==> Holds(g', box, h) {
        LivesStep(g.native, asked.value, box, h);
        HoldsStep(g, op, box, h);
      }
    }
  }

  /** Closing an open object frees its native handle and leaves it closed; closing it again
      is refused and changes nothing. */
  lemma ClosedForGood(g: GoState, box: Box, o: nat)
    requires Good(g)
    ensures var (g', out) := GoApply(g, GoClose(box, o)); var h := Handle(Standard, o);
      && (out == Native(Done) <==> Holds(g, box, h))
      && !Holds(g', box, h) && (out == Native(Done) ==> h !in Alive(g'.native, box))
      && GoApply(g', GoClose(box, o)) == (g', ErrClosed)
  {
    OpenIsStandard(g, box, o);
    CloseForgets(g, box, o, box, o);
    CloseFrees(g, box, o);
    CloseFrees(GoCloseObject(g, box, o).0, box, o);
    hide Good, GoCloseObject, OpenHandle, Apply, Alive;
  }

  lemma CloseFrees(g: GoState, box: Box, o: nat)
    ensures var inner := OpenHandle(g, box, o);
      if inner.None? then GoCloseObject(g, box, o) == (g, ErrClosed)
      else GoCloseObject(g, box, o).1 == Native(Done) && inner.value !in Alive(GoCloseObject(g, box, o).0.native, box)
  {
  }

  // --------------------------------------------- a Go run is a native run

  /** The native calls a run of Go calls makes. */
  function Asks(g: GoState, ops: seq<GoOp>): (ns: seq<Op>)
    decreases |ops|
  {
    if ops == [] then [] else
      var first := Asked(g, ops[0]);
      (if first.None? then [] else [first.value]) + Asks(GoApply(g, ops[0]).0, ops[1..])
  }

  /** Go calls drive the native protocol as its pointer types allow, so everything proved
      of native runs holds of Go runs. */
  lemma {:induction false} GoRunIsNativeRun(g: GoState, ops: seq<GoOp>)
    requires Good(g)
    ensures GoRun(g, ops).native == Run(g.native, Asks(g, ops))
    ensures forall k :: 0 <= k < |Asks(g, ops)| ==> Typed(Asks(g, ops)[k])
    decreases |ops|
  {
    hide Good, GoApply, Asked, Apply, Typed;
    if ops != [] {
      var g', rest := GoApply(g, ops[0]).0, Asks(GoApply(g, ops[0]).0, ops[1..]);
      GoApplyKeeps(g, ops[0]);
      GoCallIsNative(g, ops[0]);
      AskedIsTyped(g, ops[0]);
      GoRunIsNativeRun(g', ops[1..]);
      if Asked(g, ops[0]).Some? {
        assert ([Asked(g, ops[0]).value] + rest)[1..] == rest;
      } else {
        assert [] + rest == rest;
      }
    }
  }

  lemma AskedIsTyped(g: GoState, op: GoOp)
    requires Good(g)
    ensures Asked(g, op).Some? ==> Typed(Asked(g, op).value)
  {
    hide Good, Dispatch;
    match op
    case GoMerge(t, src) =>
      OpenIsStandard(g, MessagesBox, t);
      if src.Some? { OpenIsStandard(g, MessagesBox, src.value); }
    case GoCommit(c, m, style, ok) =>
      OpenIsStandard(g, CommitterBox, c);
      if m.Some? {
        OpenIsStandard(g, MessagesBox, m.value);
        DispatchIsCall(c in g.committers && g.committers[c].overwrite, Handle(Standard, c), Handle(Standard, m.value), style, ok);
      }
    case GoAbort(c, m, ok) =>
      OpenIsStandard(g, CommitterBox, c);
      if m.Some? { OpenIsStandard(g, MessagesBox, m.value); }
    case _ =>
  }

  /** What each of the three commit calls stands for. A plain append commit bears the
      largest identifier; a plain overwrite is not tagged. */
  ghost predicate Meant(style: Style, overwrite: bool, op: CoreOp) {
    match style
    case Plain => if overwrite then op.CoreOverwrite? && !op.tagged else op == CoreCommit(0x7FFF_FFFF_FFFF_FFFF, false)
    case WithIdentifier(i) => op == if overwrite then CoreOverwrite(true, i) else CoreCommit(i, false)
    case Filtered(i) => op == if overwrite then CoreOverwrite(true, i) else CoreCommit(i, true)
  }

  /** After any run, a Go commit of open messages whose context is the committer's hands
      the core one call: the meant one, with every message as often as it was merged in.
      Any other Go commit hands over nothing. */
  lemma GoCommitHandsOver(ops: seq<GoOp>, c: nat, m: Option<nat>, style: Style, coreOk: bool)
    ensures var g := GoRun(GO_INIT, ops);
      var g' := GoApply(g, GoCommit(c, m, style, coreOk)).0;
      var inner, held := FlaggedInner(g.committers, c), Inner(g.messages, m);
      if inner.Some? && held.Some? && inner.value in g.native.committers && held.value in g.native.messages
         && g.native.committers[inner.value] == g.native.messages[held.value].context
      then HandsOne(g, g', inner.value, held.value) && Meant(style, g.native.committers[inner.value].overwrite, g'.native.calls[|g.native.calls|].op)
      else g'.native.calls == g.native.calls
  {
    var g := GoRun(GO_INIT, ops);
    ReachableIsGood(ops);
    hide GoRun;
    GoCommitHands(g, c, m, style, coreOk);
  }

  /** One call is added, in the committer's context, with the handle's messages. */
  ghost predicate HandsOne(g: GoState, g': GoState, c: Handle, m: Handle)
    requires c in g.native.committers && m in g.native.messages
  {
    && |g'.native.calls| == |g.native.calls| + 1 && g'.native.calls[..|g.native.calls|] == g.native.calls
    && var call := g'.native.calls[|g.native.calls|];
       && call.kind == Standard && call.committer == g.native.committers[c]
       && forall x :: multiset(call.list)[x] == Times(g.native.messages[m].lineage, x)
  }

  lemma ReachableIsGood(ops: seq<GoOp>)
    ensures Good(GoRun(GO_INIT, ops)) && Inv(GoRun(GO_INIT, ops).native)
  {
    hide GoRun, Run;
    ModesAgree(GO_INIT, ops);
    GoRunIsNativeRun(GO_INIT, ops);
    Provenance(INIT, Asks(GO_INIT, ops));
  }

  lemma GoCommitHands(g: GoState, c: nat, m: Option<nat>, style: Style, coreOk: bool)
    requires Good(g) && Inv(g.native)
    ensures var g' := GoApply(g, GoCommit(c, m, style, coreOk)).0;
      var inner, held := FlaggedInner(g.committers, c), Inner(g.messages, m);
      if inner.Some? && held.Some? && inner.value in g.native.committers && held.value in g.native.messages
         && g.native.committers[inner.value] == g.native.messages[held.value].context
      then HandsOne(g, g', inner.value, held.value) && Meant(style, g.native.committers[inner.value].overwrite, g'.native.calls[|g.native.calls|].op)
      else g'.native.calls == g.native.calls
  {
    hide Apply, Inv, Good, GoApply, Times, Flatten, Typed, Alive, OpenHandle, Handed, HandsOne, Reaching;
    var op := GoCommit(c, m, style, coreOk);
    GoCallIsNative(g, op);
    AskedIsTyped(g, op);
    var inner, held := FlaggedInner(g.committers, c), Inner(g.messages, m);
    if inner.Some? && held.Some? {
      BothOpen(g, c, m);
      DispatchReaches(g.native, inner.value, held.value, style, coreOk);
      HandOverIs(g.native, Asked(g, op).value);
      if Reaching(g.native, Asked(g, op).value) {
        HandedIsOne(g, GoApply(g, op).0, Asked(g, op).value);
      }
    }
  }

  /** An open committer and open messages are alive natively, and the flags agree. */
  lemma BothOpen(g: GoState, c: nat, m: Option<nat>)
    requires Good(g) && FlaggedInner(g.committers, c).Some? && Inner(g.messages, m).Some?
    ensures var h, k := FlaggedInner(g.committers, c).value, Inner(g.messages, m).value;
      && h.kind == k.kind == Standard && h in g.native.committers && k in g.native.messages
      && g.native.committers[h].overwrite == g.committers[c].overwrite
  {
    assert FlagAgrees(c, g.committers[c], g.native.committers);
    assert Owns(m.value, g.messages[m.value], g.native.messages);
  }

  lemma DispatchReaches(s: State, c: Handle, m: Handle, style: Style, coreOk: bool)
    requires c in s.committers && m in s.messages && c.kind == m.kind == Standard
    ensures var op := Dispatch(s.committers[c].overwrite, c, m, style, coreOk);
      && (Reaching(s, op) <==> s.committers[c] == s.messages[m].context)
      && (op.Commit? || op.Overwrite?) && op.committer == c && op.messages == m
      && (op.Commit? ==> Meant(style, s.committers[c].overwrite, CoreCommit(op.identifier, op.filter)))
      && (op.Overwrite? ==> Meant(style, s.committers[c].overwrite, CoreOverwrite(op.tagged, op.identifier)))
  {
  }

  lemma HandedIsOne(g: GoState, g': GoState, op: Op)
    requires Reaching(g.native, op) && op.committer.kind == Standard
    ensures
      && |g'.native.calls| == |g.native.calls| + 1 && g'.native.calls[..|g.native.calls|] == g.native.calls
      && Handed(g.native, op, g'.native.calls[|g.native.calls|])
      ==>
      && HandsOne(g, g', op.committer, op.messages)
      && var core := g'.native.calls[|g.native.calls|].op;
         && (op.Commit? ==> core == CoreCommit(op.identifier, op.filter))
         && (op.Overwrite? ==> core == CoreOverwrite(op.tagged, op.identifier))
         && (op.Abort? ==> core == CoreAbort)
  {
    hide Times, Flatten;
  }

  /** The same for an abort, which always hands over as an abort. */
  lemma GoAbortHandsOver(ops: seq<GoOp>, c: nat, m: Option<nat>, coreOk: bool)
    ensures var g := GoRun(GO_INIT, ops);
      var g' := GoApply(g, GoAbort(c, m, coreOk)).0;
      var inner, held := FlaggedInner(g.committers, c), Inner(g.messages, m);
      if inner.Some? && held.Some? && inner.value in g.native.committers && held.value in g.native.messages
         && g.native.committers[inner.value] == g.native.messages[held.value].context
      then HandsOne(g, g', inner.value, held.value) && g'.native.calls[|g.native.calls|].op == CoreAbort
      else g'.native.calls == g.native.calls
  {
    var g := GoRun(GO_INIT, ops);
    ReachableIsGood(ops);
    hide GoRun, Apply, Inv, Good, GoApply, Typed, Handed, HandsOne;
    var op := GoAbort(c, m, coreOk);
    GoCallIsNative(g, op);
    AskedIsTyped(g, op);
    var inner, held := FlaggedInner(g.committers, c), Inner(g.messages, m);
    if inner.Some? && held.Some? {
      BothOpen(g, c, m);
      HandOverIs(g.native, Abort(inner.value, held.value, coreOk));
      if Reaching(g.native, Abort(inner.value, held.value, coreOk)) {
        HandedIsOne(g, GoApply(g, op).0, Abort(inner.value, held.value, coreOk));
      }
    }
  }

  // ------------------------------------------------- the objects themselves

  class CommitMessages {
    const native: NativeWrites
    var inner: Option<Handle>

    constructor (native: NativeWrites, h: Handle)
      ensures this.native == native && inner == Some(h)
    {
      this.native, inner := native, Some(h);
    }

    /** Copies the source's messages in; a nil or closed source is refused first. */
    method Merge(source: CommitMessages?) returns (r: GoOutcome)
      modifies native
      ensures inner.None? || source == null || source.inner.None? ==> r == ErrClosed && native.Abs() == old(native.Abs())
      ensures inner.Some? && source != null && source.inner.Some? ==>
        r.Native? && (native.Abs(), r.outcome) == Apply(old(native.Abs()), CommitProtocol.Merge(inner.value, source.inner.value))
    {
      if inner.None? { return ErrClosed; }
      if source == null || source.inner.None? { return ErrClosed; }
      var out := native.MessagesMerge(inner.value, source.inner.value);
      r := Native(out);
    }
  }

  class WriteBuilder {
    const native: NativeWrites
    var inner: Option<Handle>
    var overwrite: bool

    /** The flag mirrors the native builder for as long as the object is open. */
    ghost predicate Valid()
      reads this, native
    {
      inner.Some? ==> inner.value.kind.Standard? && inner.value in native.builders && native.builders[inner.value].overwrite == overwrite
    }

    constructor (native: NativeWrites, h: Handle)
      requires h.kind.Standard? && h in native.builders && !native.builders[h].overwrite
      ensures Valid() && this.native == native && inner == Some(h)
    {
      this.native, inner, overwrite := native, Some(h), false;
    }

    method WithOverwrite() returns (r: GoOutcome)
      requires Valid()
      modifies this`overwrite, native
      ensures Valid()
      ensures inner.None? ==> r == ErrClosed && native.Abs() == old(native.Abs()) && overwrite == old(overwrite)
      ensures inner.Some? ==> r == Native(Done) && overwrite
      ensures inner.Some? ==> native.Abs() == Apply(old(native.Abs()), CommitProtocol.WithOverwrite(inner.value)).0
    {
      if inner.None? { return ErrClosed; }
      var out := native.BuilderWithOverwrite(inner.value);
      if !out.Done? { return Native(out); }
      overwrite := true;
      r := Native(Done);
    }

    method NewCommit(coreOk: bool) returns (r: GoOutcome, tc: TableCommit?)
      requires Valid()
      modifies native
      ensures Valid() && (tc != null <==> inner.Some? && coreOk)
      ensures inner.None? ==> r == ErrClosed && native.Abs() == old(native.Abs())
      ensures inner.Some? ==> r.Native? && (native.Abs(), r.outcome) == Apply(old(native.Abs()), CommitProtocol.NewCommit(inner.value, coreOk))
      ensures tc != null ==> fresh(tc) && tc.native == native && tc.Valid() && tc.overwrite == overwrite
      ensures tc != null ==> tc.inner.Some? && r == Native(Created(tc.inner.value))
    {
      tc := null;
      if inner.None? { r := ErrClosed; return; }
      var out := native.BuilderNewCommit(inner.value, coreOk);
      r := Native(out);
      if out.Created? {
        tc := new TableCommit(native, out.handle, overwrite);
      }
    }

    method Close()
      requires Valid()
      modifies this`inner, native
      ensures Valid() && inner.None?
      ensures native.Abs() == if old(inner).Some? then Apply(old(native.Abs()), Free(BuilderBox, old(inner).value)).0 else old(native.Abs())
    {
      if inner.Some? {
        native.FreeHandle(BuilderBox, inner.value);
        inner := None;
      }
    }
  }

  class TableCommit {
    const native: NativeWrites
    const overwrite: bool
    var inner: Option<Handle>

    ghost predicate Valid()
      reads this, native
    {
      inner.Some? ==> inner.value.kind.Standard? && inner.value in native.committers && native.committers[inner.value].overwrite == overwrite
    }

    constructor (native: NativeWrites, h: Handle, overwrite: bool)
      requires h.kind.Standard? && h in native.committers && native.committers[h].overwrite == overwrite
      ensures Valid() && this.native == native && inner == Some(h) && this.overwrite == overwrite
    {
      this.native, inner, this.overwrite := native, Some(h), overwrite;
    }

    /** Commit in any of its three styles, dispatched on the committer's own flag. */
    method Commit(messages: CommitMessages?, style: Style, coreOk: bool) returns (r: GoOutcome)
      requires Valid() && (messages != null && messages.inner.Some? ==> messages.inner.value.kind.Standard?)
      modifies native
      ensures Valid() && !WrongMode(r)
      ensures inner.None? || messages == null || messages.inner.None? ==> r == ErrClosed && native.Abs() == old(native.Abs())
      ensures inner.Some? && messages != null && messages.inner.Some? ==>
        r.Native? && (native.Abs(), r.outcome) == Apply(old(native.Abs()), Dispatch(overwrite, inner.value, messages.inner.value, style, coreOk))
    {
      if inner.None? { return ErrClosed; }
      if messages == null || messages.inner.None? { return ErrClosed; }
      var c, m := inner.value, messages.inner.value;
      var out;
      DispatchNotWrong(native.Abs(), c, m, style, coreOk);
      hide Apply, Reaching, Refusal;
      match style {
        case Plain =>
          if overwrite {
            out := native.CommitOverwrite(c, m, false, 0, coreOk);
          } else {
            out := native.CommitWithIdentifier(c, m, MAX_IDENTIFIER, false, coreOk);
          }
        case WithIdentifier(i) =>
          if overwrite {
            out := native.CommitOverwrite(c, m, true, i, coreOk);
          } else {
            out := native.CommitWithIdentifier(c, m, i, false, coreOk);
          }
        case Filtered(i) =>
          if overwrite {
            out := native.CommitOverwrite(c, m, true, i, coreOk);
          } else {
            out := native.CommitWithIdentifier(c, m, i, true, coreOk);
          }
      }
      r := Native(out);
    }
  }
}
