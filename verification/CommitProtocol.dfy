/** The native write protocol: builders make writers and committers, writers
prepare commit messages, message handles are merged, and committers hand them to
the table core as a commit, an overwrite or an abort.

Each handle carries the context it was made in. A handle that is not in its map
stands for a null pointer. What the core does with a call is not modelled beyond
whether it succeeds; what it is handed is recorded. `lineage`, `origins` and
`calls` are history: nothing branches on them.
*/
module CommitProtocol {
  import opened Options

  datatype Kind = Standard | FixedBucket

  datatype Handle = Handle(kind: Kind, id: nat)

  datatype Context = Context(table: string, user: string, overwrite: bool)

  /** One commit message: its writer, the handle it was prepared into, its place there. */
  datatype Message = Message(writer: Handle, birth: nat, ordinal: nat)

  /** How a message handle came to hold what it holds. */
  datatype Lineage = Prepared(writer: Handle, birth: nat, count: nat) | Merged(target: Lineage, source: Lineage)

  datatype Messages = Messages(context: Context, list: seq<Message>, lineage: Lineage)

  datatype CoreOp = CoreCommit(identifier: int, filter: bool) | CoreOverwrite(tagged: bool, identifier: int) | CoreAbort

  datatype CoreCall = CoreCall(kind: Kind, committer: Context, op: CoreOp, list: seq<Message>)

  datatype Rejection =
    | NullPointer | SameHandle | MergeContextDiffers | MergeModeDiffers
    | DifferentTable | DifferentUser | DifferentMode
    | OverwriteMessagesInCommit | AppendMessagesInOverwrite

  datatype Outcome = Done | Created(handle: Handle) | Rejected(reason: Rejection) | CoreError

  datatype State = State(
    builders: map<Handle, Context>,
    writers: map<Handle, Context>,
    messages: map<Handle, Messages>,
    committers: map<Handle, Context>,
    origins: map<Handle, Context>,
    calls: seq<CoreCall>,
    next: nat)

  const INIT := State(map[], map[], map[], map[], map[], [], 0)

  function ValidateMessageContext(target: Context, source: Context): (r: Option<Rejection>) {
    if target.table != source.table || target.user != source.user then Some(MergeContextDiffers)
    else if target.overwrite != source.overwrite then Some(MergeModeDiffers)
    else None
  }

  function ValidateCommitContext(commit: Context, message: Context): (r: Option<Rejection>) {
    if commit.table != message.table then Some(DifferentTable)
    else if commit.user != message.user then Some(DifferentUser)
    else if commit.overwrite != message.overwrite then Some(DifferentMode)
    else None
  }

  function Flatten(l: Lineage): (s: seq<Message>) {
    match l
    case Prepared(w, birth, n) => Batch(w, birth, n)
    case Merged(t, s) => Flatten(t) + Flatten(s)
  }

  /** The messages a writer has pending when it prepares. */
  function Batch(writer: Handle, birth: nat, count: nat): (s: seq<Message>)
    ensures |s| == count && forall m :: m in s ==> m.writer == writer
    ensures forall i :: 0 <= i < count ==> s[i] == Message(writer, birth, i)
  {
    seq(count, i requires 0 <= i < count => Message(writer, birth, i))
  }

  // ------------------------------------------------------------- operations

  /** Which of the free functions is called. */
  datatype Box = BuilderBox | WriterBox | MessagesBox | CommitterBox

  datatype Op =
    | NewBuilder(kind: Kind, table: string, user: Option<string>)      // None: the core refuses
    | WithOverwrite(builder: Handle)
    | NewWrite(builder: Handle, coreOk: bool)
    | NewCommit(builder: Handle, coreOk: bool)
    | Prepare(writer: Handle, produced: Option<nat>)                   // None: the core fails
    | Merge(target: Handle, source: Handle)
    | Commit(committer: Handle, messages: Handle, identifier: int, filter: bool, coreOk: bool)
    | Overwrite(committer: Handle, messages: Handle, tagged: bool, identifier: int, coreOk: bool)
    | Abort(committer: Handle, messages: Handle, coreOk: bool)
    | Free(box: Box, handle: Handle)

  /** Pointer types keep the two families apart: a call never mixes kinds, and there
      is no fixed-bucket overwrite entry point. */
  predicate Typed(op: Op) {
    match op
    case Merge(t, s) => t.kind == s.kind
    case Commit(c, m, _, _, _) => c.kind == m.kind
    case Overwrite(c, m, _, _, _) => c.kind == m.kind == Standard
    case Abort(c, m, _) => c.kind == m.kind
    case _ => true
  }

  function CoreOutcome(ok: bool): (r: Outcome) { if ok then Done else CoreError }

  function Call(s: State, c: Handle, m: Handle, op: CoreOp): (s': State)
    requires c in s.committers && m in s.messages
  {
    s.(calls := s.calls + [CoreCall(c.kind, s.committers[c], op, s.messages[m].list)])
  }

  /** Why a call on a committer and messages is turned down before the core, if it is. */
  function Refusal(s: State, op: Op): (r: Option<Rejection>)
    requires op.Commit? || op.Overwrite? || op.Abort?
  {
    if op.committer !in s.committers || op.messages !in s.messages then Some(NullPointer) else
      var message := s.messages[op.messages].context;
      var checked := ValidateCommitContext(s.committers[op.committer], message);
      if checked.Some? then checked
      else if op.Commit? && op.committer.kind.Standard? && message.overwrite then Some(OverwriteMessagesInCommit)
      else if op.Overwrite? && !message.overwrite then Some(AppendMessagesInOverwrite)
      else None
  }

  function CoreOpOf(op: Op): (r: CoreOp)
    requires op.Commit? || op.Overwrite? || op.Abort?
  {
    match op
    case Commit(_, _, identifier, filter, _) => CoreCommit(identifier, filter)
    case Overwrite(_, _, tagged, identifier, _) => CoreOverwrite(tagged, identifier)
    case Abort(_, _, _) => CoreAbort
  }

  function Apply(s: State, op: Op): (r: (State, Outcome)) {
    match op
    case NewBuilder(kind, table, user) =>
      if user.None? then (s, CoreError) else
        var h := Handle(kind, s.next);
        (s.(builders := s.builders[h := Context(table, user.value, false)], next := s.next + 1), Created(h))
    case WithOverwrite(b) =>
      if b !in s.builders then (s, Rejected(NullPointer))
      else (s.(builders := s.builders[b := s.builders[b].(overwrite := true)]), Done)
    case NewWrite(b, coreOk) =>
      if b !in s.builders then (s, Rejected(NullPointer))
      else if !coreOk then (s, CoreError)
      else
        var h := Handle(b.kind, s.next);
        (s.(writers := s.writers[h := s.builders[b]], origins := s.origins[h := s.builders[b]], next := s.next + 1), Created(h))
    case NewCommit(b, coreOk) =>
      if b !in s.builders then (s, Rejected(NullPointer))
      else if !coreOk then (s, CoreError)
      else
        var h := Handle(b.kind, s.next);
        (s.(committers := s.committers[h := s.builders[b]], next := s.next + 1), Created(h))
    case Prepare(w, produced) =>
      if w !in s.writers then (s, Rejected(NullPointer))
      else if produced.None? then (s, CoreError)
      else
        var h := Handle(w.kind, s.next);
        var batch := Batch(w, s.next, produced.value);
        (s.(messages := s.messages[h := Messages(s.writers[w], batch, Prepared(w, s.next, produced.value))], next := s.next + 1), Created(h))
    case Merge(t, src) =>
      if t !in s.messages || src !in s.messages then (s, Rejected(NullPointer))
      else if t == src then (s, Rejected(SameHandle))
      else
        var target, source := s.messages[t], s.messages[src];
        var checked := ValidateMessageContext(target.context, source.context);
        if checked.Some? then (s, Rejected(checked.value))
        else (s.(messages := s.messages[t := Messages(target.context, target.list + source.list,
                                                      Merged(target.lineage, source.lineage))]), Done)
    case Free(box, h) =>
      (match box
       case BuilderBox => s.(builders := s.builders - {h})
       case WriterBox => s.(writers := s.writers - {h})
       case MessagesBox => s.(messages := s.messages - {h})
       case CommitterBox => s.(committers := s.committers - {h}), Done)
    case Commit(_, _, _, _, _) => HandOver(s, op)
    case Overwrite(_, _, _, _, _) => HandOver(s, op)
    case Abort(_, _, _) => HandOver(s, op)
  }

  function HandOver(s: State, op: Op): (r: (State, Outcome))
    requires op.Commit? || op.Overwrite? || op.Abort?
    ensures r.0.(calls := s.calls) == s
  {
    var refusal := Refusal(s, op);
    if refusal.Some? then (s, Rejected(refusal.value))
    else (Call(s, op.committer, op.messages, CoreOpOf(op)), CoreOutcome(op.coreOk))
  }

  function Run(s: State, ops: seq<Op>): (r: State)
    decreases |ops|
  {
    if ops == [] then s else Run(Apply(s, ops[0]).0, ops[1..])
  }

  // -------------------------------------------------------------- invariant

  /** Every message was prepared by a writer of this kind and exactly this context. */
  predicate AllFrom(list: seq<Message>, origins: map<Handle, Context>, kind: Kind, context: Context) {
    forall m :: m in list ==> m.writer.kind == kind && m.writer in origins && origins[m.writer] == context
  }

  predicate GoodMessages(h: Handle, m: Messages, origins: map<Handle, Context>) {
    AllFrom(m.list, origins, h.kind, m.context) && m.list == Flatten(m.lineage)
  }

  /** What the core was handed matches the committer, and the entry point its mode. */
  predicate GoodCall(c: CoreCall, origins: map<Handle, Context>) {
    && AllFrom(c.list, origins, c.kind, c.committer)
    && (c.op.CoreCommit? && c.kind.Standard? ==> !c.committer.overwrite)
    && (c.op.CoreOverwrite? ==> c.kind.Standard? && c.committer.overwrite)
  }

  predicate Inv(s: State) {
    && (forall h :: h in s.messages ==> GoodMessages(h, s.messages[h], s.origins))
    && (forall w :: w in s.writers ==> w in s.origins && s.origins[w] == s.writers[w])
    && (forall i :: 0 <= i < |s.calls| ==> GoodCall(s.calls[i], s.origins))
    && (forall w :: w in s.origins ==> w.id < s.next)
  }

  lemma AllFromGrows(list: seq<Message>, origins: map<Handle, Context>, kind: Kind, context: Context, h: Handle, c: Context)
    requires AllFrom(list, origins, kind, context) && h !in origins
    ensures AllFrom(list, origins[h := c], kind, context)
  {
  }

  lemma NewWriteKeeps(s: State, b: Handle)
    requires Inv(s) && b in s.builders
    ensures Inv(Apply(s, NewWrite(b, true)).0)
  {
    var s' := Apply(s, NewWrite(b, true)).0;
    var h := Handle(b.kind, s.next);
    hide AllFrom;
    forall k | k in s.messages ensures GoodMessages(k, s.messages[k], s'.origins) {
      AllFromGrows(s.messages[k].list, s.origins, k.kind, s.messages[k].context, h, s.builders[b]);
    }
    forall i | 0 <= i < |s.calls| ensures GoodCall(s.calls[i], s'.origins) {
      AllFromGrows(s.calls[i].list, s.origins, s.calls[i].kind, s.calls[i].committer, h, s.builders[b]);
    }
  }

  lemma MergeKeeps(s: State, t: Handle, src: Handle)
    requires Inv(s) && t.kind == src.kind
    ensures Inv(Apply(s, Merge(t, src)).0)
  {
    var s' := Apply(s, Merge(t, src)).0;
    if s' != s {
      var target, source := s.messages[t], s.messages[src];
      assert GoodMessages(t, target, s.origins) && GoodMessages(src, source, s.origins);
      assert GoodMessages(t, s'.messages[t], s'.origins);
    }
  }

  lemma CallKeeps(s: State, op: Op)
    requires Inv(s) && Typed(op) && (op.Commit? || op.Overwrite? || op.Abort?)
    ensures Inv(Apply(s, op).0)
  {
    var s' := Apply(s, op).0;
    if s' != s {
      assert GoodMessages(op.messages, s.messages[op.messages], s.origins);
      assert s'.calls[|s.calls|] == CoreCall(op.committer.kind, s.committers[op.committer], CoreOpOf(op), s.messages[op.messages].list);
      forall i | 0 <= i < |s'.calls| ensures GoodCall(s'.calls[i], s'.origins) {
        if i < |s.calls| { assert s'.calls[i] == s.calls[i]; }
      }
    }
  }

  lemma PrepareKeeps(s: State, w: Handle, n: nat)
    requires Inv(s) && w in s.writers
    ensures Inv(Apply(s, Prepare(w, Some(n))).0)
  {
    var h := Handle(w.kind, s.next);
    var s' := Apply(s, Prepare(w, Some(n))).0;
    assert GoodMessages(h, s'.messages[h], s'.origins);
  }

  /** Operations that touch neither origins nor message lists. */
  lemma BuilderOpsKeep(s: State, op: Op)
    requires Inv(s) && (op.NewBuilder? || op.WithOverwrite? || op.NewCommit?)
    ensures Inv(Apply(s, op).0)
  {
    hide GoodMessages, GoodCall;
  }

  lemma FreeKeeps(s: State, box: Box, h: Handle)
    requires Inv(s)
    ensures Inv(Apply(s, Free(box, h)).0)
  {
    hide GoodMessages, GoodCall;
  }

  lemma ApplyKeeps(s: State, op: Op)
    requires Inv(s) && Typed(op)
    ensures Inv(Apply(s, op).0)
  {
    hide GoodMessages, GoodCall, Refusal, Flatten;
    match op
    case Free(box, h) => FreeKeeps(s, box, h);
    case NewBuilder(_, _, _) => BuilderOpsKeep(s, op);
    case WithOverwrite(_) => BuilderOpsKeep(s, op);
    case NewCommit(_, _) => BuilderOpsKeep(s, op);
    case NewWrite(b, coreOk) => if b in s.builders && coreOk { NewWriteKeeps(s, b); }
    case Merge(t, src) => MergeKeeps(s, t, src);
    case Prepare(w, produced) => if w in s.writers && produced.Some? { PrepareKeeps(s, w, produced.value); }
    case Commit(_, _, _, _, _) => CallKeeps(s, op);
    case Overwrite(_, _, _, _, _) => CallKeeps(s, op);
    case Abort(_, _, _) => CallKeeps(s, op);
  }

  /** In every run, every message the core is ever handed came from a writer with the
      committer's table, commit user and mode; commits carry append messages and
      overwrites overwrite messages; and each handle holds the flattening of its merges. */
  lemma {:induction false} Provenance(s: State, ops: seq<Op>)
    requires Inv(s) && forall i :: 0 <= i < |ops| ==> Typed(ops[i])
    ensures Inv(Run(s, ops))
    decreases |ops|
  {
    if ops != [] {
      ApplyKeeps(s, ops[0]);
      Provenance(Apply(s, ops[0]).0, ops[1..]);
    }
  }

  lemma RunsFromNothing(ops: seq<Op>)
    requires forall i :: 0 <= i < |ops| ==> Typed(ops[i])
    ensures var s := Run(INIT, ops);
      && (forall i, m :: 0 <= i < |s.calls| && m in s.calls[i].list ==>
            m.writer in s.origins && s.origins[m.writer] == s.calls[i].committer)
      && (forall h :: h in s.messages ==> s.messages[h].list == Flatten(s.messages[h].lineage))
      && |s.calls| == HandOvers(INIT, ops)
  {
    Provenance(INIT, ops);
    hide Run, HandOvers, Apply, Typed;
    if ops == [] {
      NoHandOvers(INIT);
    } else {
      EveryHandOver(INIT, ops, 0);
    }
  }

  /** A call that is turned down, or that the core fails to serve before any handle is
      made, leaves every handle as it was. */
  lemma RejectedChangesNothing(s: State, op: Op)
    ensures Apply(s, op).1.Rejected? ==> Apply(s, op).0 == s
    ensures Apply(s, op).1.CoreError? ==> Apply(s, op).0.(calls := s.calls) == s
  {
  }

  /** Handing messages over, or being refused, changes no handle. */
  lemma CallsChangeNoHandle(s: State, op: Op)
    requires op.Commit? || op.Overwrite? || op.Abort?
    ensures Apply(s, op).0.(calls := s.calls) == s
  {
    hide HandOver;
  }

  /** Reaching the core is decided by the contexts alone. */
  lemma ReachesCore(s: State, op: Op)
    requires Typed(op) && (op.Commit? || op.Overwrite? || op.Abort?)
    requires op.committer in s.committers && op.messages in s.messages
    ensures var c, m := s.committers[op.committer], s.messages[op.messages].context;
            |Apply(s, op).0.calls| > |s.calls| <==>
              && c == m
              && (op.Commit? && op.committer.kind.Standard? ==> !c.overwrite)
              && (op.Overwrite? ==> c.overwrite)
  {
  }

  /** Why a call on a committer and messages is turned down: a missing handle first, then
      the first of table, user and mode to differ, then the wrong entry point. */
  lemma RefusedBecause(s: State, op: Op)
    requires op.Commit? || op.Overwrite? || op.Abort?
    ensures var out := Apply(s, op).1; var both := op.committer in s.committers && op.messages in s.messages;
      && (out == Rejected(NullPointer) <==> !both)
      && (both ==> var c, m := s.committers[op.committer], s.messages[op.messages].context;
            && (out == Rejected(DifferentTable) <==> c.table != m.table)
            && (out == Rejected(DifferentUser) <==> c.table == m.table && c.user != m.user)
            && (out == Rejected(DifferentMode) <==> c.table == m.table && c.user == m.user && c.overwrite != m.overwrite)
            && (out == Rejected(OverwriteMessagesInCommit) <==> c == m && op.Commit? && op.committer.kind.Standard? && m.overwrite)
            && (out == Rejected(AppendMessagesInOverwrite) <==> c == m && op.Overwrite? && !m.overwrite))
  {
  }

  /** And a merge: a missing handle, the same handle twice, another table or user, another
      mode. */
  lemma MergeRefusedBecause(s: State, t: Handle, src: Handle)
    ensures var out := Apply(s, Merge(t, src)).1; var both := t in s.messages && src in s.messages;
      && (out == Rejected(NullPointer) <==> !both)
      && (out == Rejected(SameHandle) <==> both && t == src)
      && (both && t != src ==> var a, b := s.messages[t].context, s.messages[src].context;
            && (out == Rejected(MergeContextDiffers) <==> a.table != b.table || a.user != b.user)
            && (out == Rejected(MergeModeDiffers) <==> a.table == b.table && a.user == b.user && a.overwrite != b.overwrite))
  {
  }

  // ------------------------------------------------------- lives of handles

  function Alive(s: State, box: Box): (hs: set<Handle>) {
    match box
    case BuilderBox => s.builders.Keys
    case WriterBox => s.writers.Keys
    case MessagesBox => s.messages.Keys
    case CommitterBox => s.committers.Keys
  }

  function ContextOf(s: State, box: Box, h: Handle): (c: Context)
    requires h in Alive(s, box)
  {
    match box
    case BuilderBox => s.builders[h]
    case WriterBox => s.writers[h]
    case MessagesBox => s.messages[h].context
    case CommitterBox => s.committers[h]
  }

  /** Handles are numbered as they are made. */
  ghost predicate Numbered(s: State) { forall b: Box, h :: h in Alive(s, b) ==> h.id < s.next }

  /** Whether a call makes this handle, and the context it has then: given to a builder,
      taken from the builder by writers and committers, from the writer by messages. */
  function Made(s: State, op: Op, box: Box, h: Handle): (c: Option<Context>) {
    if h.id != s.next then None else
      match box
      case BuilderBox => if op.NewBuilder? && op.user.Some? && h.kind == op.kind then Some(Context(op.table, op.user.value, false)) else None
      case WriterBox => if op.NewWrite? && op.coreOk then TakenFrom(s.builders, op.builder, h) else None
      case CommitterBox => if op.NewCommit? && op.coreOk then TakenFrom(s.builders, op.builder, h) else None
      case MessagesBox => if op.Prepare? && op.produced.Some? then TakenFrom(s.writers, op.writer, h) else None
  }

  function TakenFrom(from: map<Handle, Context>, parent: Handle, h: Handle): (c: Option<Context>) {
    if parent in from && h.kind == parent.kind then Some(from[parent]) else None
  }

  /** One call: a handle is there afterwards if the call made it, or if it was there and
      the call did not free it; and a context changes only by WithOverwrite. */
  lemma LivesStep(s: State, op: Op, box: Box, h: Handle)
    requires Numbered(s)
    ensures h in Alive(Apply(s, op).0, box) <==> Made(s, op, box, h).Some? || (h in Alive(s, box) && op != Free(box, h))
    ensures h in Alive(Apply(s, op).0, box) ==>
              ContextOf(Apply(s, op).0, box, h) ==
                if Made(s, op, box, h).Some? then Made(s, op, box, h).value
                else if box.BuilderBox? && op == WithOverwrite(h) then ContextOf(s, box, h).(overwrite := true)
                else ContextOf(s, box, h)
    ensures Made(s, op, box, h).Some? ==> h !in Alive(s, box)
  {
    hide Apply, Alive, ContextOf;
    if op.Commit? || op.Overwrite? || op.Abort? {
      hide Numbered, Made;
      CallsChangeNoHandle(s, op);
      CallsMakeNothing(s, op, box, h);
    } else {
      assert Made(s, op, box, h).Some? ==> h !in Alive(s, box);
      hide Numbered, Made;
      match box
      case BuilderBox => BuilderLives(s, op, h);
      case WriterBox => WriterLives(s, op, h);
      case MessagesBox => MessagesLive(s, op, h);
      case CommitterBox => CommitterLives(s, op, h);
    }
  }

  lemma StaysNumbered(s: State, op: Op)
    requires Numbered(s)
    ensures Numbered(Apply(s, op).0)
  {
    hide Apply, Alive, ContextOf, Made;
    var t := Apply(s, op).0;
    forall b: Box, h | h in Alive(t, b) ensures h.id < t.next {
      LivesStep(s, op, b, h);
      MadeIsNext(s, op, b, h);
    }
  }

  lemma MadeIsNext(s: State, op: Op, box: Box, h: Handle)
    ensures Apply(s, op).0.next >= s.next
    ensures Made(s, op, box, h).Some? ==> h.id == s.next && Apply(s, op).0.next == s.next + 1
  {
    hide HandOver;
  }

  lemma CallsMakeNothing(s: State, op: Op, box: Box, h: Handle)
    requires op.Commit? || op.Overwrite? || op.Abort?
    ensures Made(s, op, box, h).None?
    ensures forall t: State :: t.(calls := s.calls) == s ==> Alive(t, box) == Alive(s, box) && (h in Alive(s, box) ==> ContextOf(t, box, h) == ContextOf(s, box, h))
  {
  }

  lemma BuilderLives(s: State, op: Op, h: Handle)
    requires Numbered(s) && !op.Commit? && !op.Overwrite? && !op.Abort?
    ensures var t, made := Apply(s, op).0, Made(s, op, BuilderBox, h);
      && (h in Alive(t, BuilderBox) <==> made.Some? || (h in Alive(s, BuilderBox) && op != Free(BuilderBox, h)))
      && (h in Alive(t, BuilderBox) && made.Some? ==> ContextOf(t, BuilderBox, h) == made.value)
      && (h in Alive(t, BuilderBox) && made.None? ==>
            ContextOf(t, BuilderBox, h) == Since(ContextOf(s, BuilderBox, h), op == WithOverwrite(h)))
  {
    assert h in Alive(s, BuilderBox) ==> h.id < s.next;
  }

  lemma WriterLives(s: State, op: Op, h: Handle)
    requires Numbered(s) && !op.Commit? && !op.Overwrite? && !op.Abort?
    ensures var t, made := Apply(s, op).0, Made(s, op, WriterBox, h);
      && (h in Alive(t, WriterBox) <==> made.Some? || (h in Alive(s, WriterBox) && op != Free(WriterBox, h)))
      && (h in Alive(t, WriterBox) ==> ContextOf(t, WriterBox, h) == if made.Some? then made.value else ContextOf(s, WriterBox, h))
  {
    assert h in Alive(s, WriterBox) ==> h.id < s.next;
  }

  lemma MessagesLive(s: State, op: Op, h: Handle)
    requires Numbered(s) && !op.Commit? && !op.Overwrite? && !op.Abort?
    ensures var t, made := Apply(s, op).0, Made(s, op, MessagesBox, h);
      && (h in Alive(t, MessagesBox) <==> made.Some? || (h in Alive(s, MessagesBox) && op != Free(MessagesBox, h)))
      && (h in Alive(t, MessagesBox) ==> ContextOf(t, MessagesBox, h) == if made.Some? then made.value else ContextOf(s, MessagesBox, h))
  {
    assert h in Alive(s, MessagesBox) ==> h.id < s.next;
  }

  lemma CommitterLives(s: State, op: Op, h: Handle)
    requires Numbered(s) && !op.Commit? && !op.Overwrite? && !op.Abort?
    ensures var t, made := Apply(s, op).0, Made(s, op, CommitterBox, h);
      && (h in Alive(t, CommitterBox) <==> made.Some? || (h in Alive(s, CommitterBox) && op != Free(CommitterBox, h)))
      && (h in Alive(t, CommitterBox) ==> ContextOf(t, CommitterBox, h) == if made.Some? then made.value else ContextOf(s, CommitterBox, h))
  {
    assert h in Alive(s, CommitterBox) ==> h.id < s.next;
  }

  ghost predicate Born(ops: seq<Op>, j: nat, box: Box, h: Handle) {
    j < |ops| && Made(Run(INIT, ops[..j]), ops[j], box, h).Some?
  }

  predicate Spared(ops: seq<Op>, j: nat, box: Box, h: Handle) { forall k :: j < k < |ops| ==> ops[k] != Free(box, h) }

  predicate Switched(ops: seq<Op>, j: nat, h: Handle) { exists k :: j < k < |ops| && ops[k] == WithOverwrite(h) }

  /** In every run: a handle is alive if and only if some call made it and none freed it
      since, and its context is the one it was made with, a builder's switched to overwrite
      if and only if WithOverwrite was called on it since. */
  lemma {:induction false} HandleLives(ops: seq<Op>, box: Box, h: Handle)
    ensures Numbered(Run(INIT, ops))
    ensures h in Alive(Run(INIT, ops), box) <==> exists j: nat :: Born(ops, j, box, h) && Spared(ops, j, box, h)
    ensures forall j: nat :: Born(ops, j, box, h) && Spared(ops, j, box, h) ==> h in Alive(Run(INIT, ops), box) && ContextSince(ops, j, box, h)
    decreases |ops|
  {
    hide Apply, Made, Alive, ContextOf, Born, Spared, ContextSince, Numbered, Run;
    StartsWithNothing(box, h);
    if ops == [] {
      assert forall j: nat :: !Born(ops, j, box, h) by { NothingBorn(box, h); }
    } else {
      var n := |ops| - 1;
      HandleLives(ops[..n], box, h);
      RunSnoc(INIT, ops);
      StaysNumbered(Run(INIT, ops[..n]), ops[n]);
      LivesStep(Run(INIT, ops[..n]), ops[n], box, h);
      BornLast(ops, box, h);
      forall j: nat ensures Born(ops, j, box, h) && Spared(ops, j, box, h) ==> h in Alive(Run(INIT, ops), box) && ContextSince(ops, j, box, h) {
        BornEarlier(ops, j, box, h);
      }
      if h in Alive(Run(INIT, ops), box) && !Born(ops, n, box, h) {
        var j: nat :| Born(ops[..n], j, box, h) && Spared(ops[..n], j, box, h);
        BornEarlier(ops, j, box, h);
      }
    }
  }

  /** The context of a handle made by call `j`, as the later calls left it. */
  ghost predicate ContextSince(ops: seq<Op>, j: nat, box: Box, h: Handle)
    requires Born(ops, j, box, h) && h in Alive(Run(INIT, ops), box)
  {
    ContextOf(Run(INIT, ops), box, h) == Since(Made(Run(INIT, ops[..j]), ops[j], box, h).value, box.BuilderBox? && Switched(ops, j, h))
  }

  lemma StartsWithNothing(box: Box, h: Handle)
    ensures Run(INIT, []) == INIT && h !in Alive(INIT, box) && Numbered(INIT)
  {
  }

  lemma NothingBorn(box: Box, h: Handle)
    ensures forall j: nat :: !Born([], j, box, h)
  {
  }

  /** Made by the last call. */
  lemma BornLast(ops: seq<Op>, box: Box, h: Handle)
    requires ops != [] && Numbered(Run(INIT, ops[..|ops| - 1])) && Run(INIT, ops) == Apply(Run(INIT, ops[..|ops| - 1]), ops[|ops| - 1]).0
    ensures var n := |ops| - 1;
      && (Born(ops, n, box, h) <==> Made(Run(INIT, ops[..n]), ops[n], box, h).Some?) && Spared(ops, n, box, h)
      && (Born(ops, n, box, h) ==> h in Alive(Run(INIT, ops), box) && ContextSince(ops, n, box, h))
  {
    hide Apply, Made, Alive, ContextOf, Run, Numbered;
    LivesStep(Run(INIT, ops[..|ops| - 1]), ops[|ops| - 1], box, h);
  }

  /** Made before the last call, or not at all. */
  lemma BornEarlier(ops: seq<Op>, j: nat, box: Box, h: Handle)
    requires ops != [] && Numbered(Run(INIT, ops[..|ops| - 1])) && Run(INIT, ops) == Apply(Run(INIT, ops[..|ops| - 1]), ops[|ops| - 1]).0
    requires var before := ops[..|ops| - 1];
      Born(before, j, box, h) && Spared(before, j, box, h) ==> h in Alive(Run(INIT, before), box) && ContextSince(before, j, box, h)
    ensures var n := |ops| - 1;
      && (j < n ==> (Born(ops, j, box, h) <==> Born(ops[..n], j, box, h)))
      && (Born(ops[..n], j, box, h) ==> j < n && Born(ops, j, box, h))
      && (j < n ==> (Spared(ops, j, box, h) <==> Spared(ops[..n], j, box, h) && ops[n] != Free(box, h)))
      && (Born(ops, j, box, h) && Spared(ops, j, box, h) ==> h in Alive(Run(INIT, ops), box) && ContextSince(ops, j, box, h))
  {
    var n := |ops| - 1;
    hide Apply, Made, Alive, ContextOf, Run, Numbered;
    if j < n {
      SinceThen(ops, j, box, h);
      assert ops[..n][..j] == ops[..j];
      LivesStep(Run(INIT, ops[..n]), ops[n], box, h);
    } else if j == n {
      BornLast(ops, box, h);
    }
  }

  function Since(c: Context, switched: bool): (r: Context) { if switched then c.(overwrite := true) else c }

  lemma SinceThen(ops: seq<Op>, j: nat, box: Box, h: Handle)
    requires j < |ops| - 1
    ensures var n := |ops| - 1;
      && Born(ops, j, box, h) == Born(ops[..n], j, box, h)
      && Spared(ops, j, box, h) == (Spared(ops[..n], j, box, h) && ops[n] != Free(box, h))
      && Switched(ops, j, h) == (Switched(ops[..n], j, h) || ops[n] == WithOverwrite(h))
  {
    hide Made;
    var n := |ops| - 1;
    assert ops[..n][..j] == ops[..j];
    assert forall k :: 0 <= k < n ==> ops[..n][k] == ops[k];
  }

  lemma {:induction false} RunSnoc(s: State, ops: seq<Op>)
    requires ops != []
    ensures Run(s, ops) == Apply(Run(s, ops[..|ops| - 1]), ops[|ops| - 1]).0
    decreases |ops|
  {
    hide Apply;
    if |ops| > 1 {
      RunSnoc(Apply(s, ops[0]).0, ops[1..]);
      assert ops[1..][..|ops| - 2] == ops[..|ops| - 1][1..];
    } else {
      assert ops[1..] == [] && ops[..0] == [];
    }
  }

  // ------------------------------------------------------------ multiplicity

  /** How often a merge history takes in the prepare that made `m`. */
  function Times(l: Lineage, m: Message): (n: nat) {
    match l
    case Prepared(w, birth, count) => if m.writer == w && m.birth == birth && m.ordinal < count then 1 else 0
    case Merged(t, s) => Times(t, m) + Times(s, m)
  }

  lemma {:induction false} BatchOnce(w: Handle, birth: nat, count: nat, m: Message)
    ensures multiset(Batch(w, birth, count))[m] == if m.writer == w && m.birth == birth && m.ordinal < count then 1 else 0
  {
    if count > 0 {
      BatchOnce(w, birth, count - 1, m);
      assert Batch(w, birth, count) == Batch(w, birth, count - 1) + [Message(w, birth, count - 1)];
    } else {
      assert Batch(w, birth, 0) == [];
    }
  }

  lemma {:induction false} FlattenCounts(l: Lineage, m: Message)
    ensures multiset(Flatten(l))[m] == Times(l, m)
  {
    match l
    case Prepared(w, birth, n) => BatchOnce(w, birth, n, m);
    case Merged(t, s) =>
      FlattenCounts(t, m);
      FlattenCounts(s, m);
      assert multiset(Flatten(t) + Flatten(s)) == multiset(Flatten(t)) + multiset(Flatten(s));
  }

  /** Merging copies: in every run, a handle holds each message as many times as its
      merge history reaches the prepare it came from, so once each unless a handle was
      merged in twice. */
  lemma MergeMultiplicity(ops: seq<Op>, h: Handle, m: Message)
    requires (forall i :: 0 <= i < |ops| ==> Typed(ops[i])) && h in Run(INIT, ops).messages
    ensures var held := Run(INIT, ops).messages[h]; multiset(held.list)[m] == Times(held.lineage, m)
  {
    Provenance(INIT, ops);
    FlattenCounts(Run(INIT, ops).messages[h].lineage, m);
  }

  // -------------------------------------------------------- what is handed over

  /** The calls that reach the core: both handles alive, contexts equal, and a standard
      commit in append mode, an overwrite in overwrite mode. */
  predicate Reaching(s: State, op: Op) {
    && (op.Commit? || op.Overwrite? || op.Abort?)
    && op.committer in s.committers && op.messages in s.messages
    && s.committers[op.committer] == s.messages[op.messages].context
    && (op.Commit? && op.committer.kind.Standard? ==> !s.committers[op.committer].overwrite)
    && (op.Overwrite? ==> s.committers[op.committer].overwrite)
  }

  /** What the core gets: the operation called, with the caller's identifier and flags, and
      each message as often as the merge history of the handle passed reaches it. */
  ghost predicate Handed(s: State, op: Op, call: CoreCall)
    requires Reaching(s, op)
  {
    && call.kind == op.committer.kind && call.committer == s.committers[op.committer]
    && (op.Commit? ==> call.op == CoreCommit(op.identifier, op.filter))
    && (op.Overwrite? ==> call.op == CoreOverwrite(op.tagged, op.identifier))
    && (op.Abort? ==> call.op == CoreAbort)
    && (forall m :: multiset(call.list)[m] == Times(s.messages[op.messages].lineage, m))
    && call.list == Flatten(s.messages[op.messages].lineage)
  }

  /** A call that reaches the core hands over exactly that, once; any other hands over
      nothing. */
  lemma HandOverIs(s: State, op: Op)
    requires Inv(s) && Typed(op)
    ensures var (t, out) := Apply(s, op);
      if Reaching(s, op) then
        && |t.calls| == |s.calls| + 1 && t.calls[..|s.calls|] == s.calls && Handed(s, op, t.calls[|s.calls|])
        && out == (if op.coreOk then Done else CoreError)
      else t.calls == s.calls
  {
    if op.Commit? || op.Overwrite? || op.Abort? {
      ReachingRecords(s, op);
      if Reaching(s, op) {
        HeldIsCounted(s, op.messages);
      }
      hide Apply, Inv, Flatten, Times;
    } else {
      CallsOnly(s, op);
      hide Apply, Inv;
    }
  }

  lemma ReachingRecords(s: State, op: Op)
    requires Typed(op) && (op.Commit? || op.Overwrite? || op.Abort?)
    ensures var (t, out) := Apply(s, op);
      if Reaching(s, op) then
        && t.calls == s.calls + [CoreCall(op.committer.kind, s.committers[op.committer], CoreOpOf(op), s.messages[op.messages].list)]
        && out == CoreOutcome(op.coreOk)
      else t.calls == s.calls
  {
    hide CoreOpOf;
  }

  lemma CallsOnly(s: State, op: Op)
    requires !op.Commit? && !op.Overwrite? && !op.Abort?
    ensures Apply(s, op).0.calls == s.calls
  {
    hide HandOver, Batch, ValidateMessageContext;
  }

  lemma HeldIsCounted(s: State, h: Handle)
    requires Inv(s) && h in s.messages
    ensures var held := s.messages[h];
      held.list == Flatten(held.lineage) && forall m :: multiset(held.list)[m] == Times(held.lineage, m)
  {
    var held := s.messages[h];
    assert GoodMessages(h, held, s.origins);
    hide Inv, AllFrom, Flatten, Times;
    forall m ensures multiset(held.list)[m] == Times(held.lineage, m) {
      FlattenCounts(held.lineage, m);
    }
  }

  function HandOvers(s: State, ops: seq<Op>): (n: nat)
    decreases |ops|
  {
    if ops == [] then 0 else
      var n := |ops| - 1;
      HandOvers(s, ops[..n]) + (if Reaching(Run(s, ops[..n]), ops[n]) then 1 else 0)
  }

  /** In every run the core's calls are exactly the hand-overs, in order. */
  lemma {:induction false} EveryHandOver(s: State, ops: seq<Op>, i: nat)
    requires Inv(s) && (forall k :: 0 <= k < |ops| ==> Typed(ops[k])) && i < |ops|
    ensures |Run(s, ops).calls| == |s.calls| + HandOvers(s, ops)
    ensures var at := |s.calls| + HandOvers(s, ops[..i]);
      Reaching(Run(s, ops[..i]), ops[i]) ==> at < |Run(s, ops).calls| && Handed(Run(s, ops[..i]), ops[i], Run(s, ops).calls[at])
    decreases |ops|
  {
    hide Apply, Inv, Typed, Reaching, Handed, Run;
    var n := |ops| - 1;
    var before := ops[..n];
    assert forall k :: 0 <= k < n ==> before[k] == ops[k];
    Provenance(s, before);
    RunSnoc(s, ops);
    HandOverIs(Run(s, before), ops[n]);
    if n == 0 {
      NoHandOvers(s);
      assert before == [];
    } else {
      EveryHandOver(s, before, if i < n then i else 0);
      if i < n { assert before[..i] == ops[..i]; }
    }
  }

  lemma NoHandOvers(s: State)
    ensures Run(s, []) == s && HandOvers(s, []) == 0
  {
  }

  // --------------------------------------------------------- what a handle holds

  /** Merging adds the source's messages to the target's and changes no other handle. */
  lemma MergeAdds(s: State, t: Handle, src: Handle, m: Message, h: Handle)
    ensures Apply(s, Merge(t, src)).1.Done? <==> t in s.messages && src in s.messages && t != src && s.messages[t].context == s.messages[src].context
    ensures var s' := Apply(s, Merge(t, src)).0; Apply(s, Merge(t, src)).1.Done? ==>
      && multiset(s'.messages[t].list)[m] == multiset(s.messages[t].list)[m] + multiset(s.messages[src].list)[m]
      && (h in s.messages && h != t ==> h in s'.messages && s'.messages[h] == s.messages[h])
  {
  }

  /** Messages bear the number of the handle they were prepared into. */
  ghost predicate Dated(s: State) {
    && (forall h, m :: h in s.messages && m in s.messages[h].list ==> m.birth < s.next)
    && (forall i, m :: 0 <= i < |s.calls| && m in s.calls[i].list ==> m.birth < s.next)
  }

  lemma StaysDated(s: State, op: Op)
    requires Dated(s)
    ensures Dated(Apply(s, op).0)
  {
    match op
    case Prepare(w, produced) => if w in s.writers && produced.Some? { PrepareDated(s, w, produced.value); }
    case Merge(t, src) => MergeDated(s, t, src);
    case _ => OthersDated(s, op);
  }

  lemma PrepareDated(s: State, w: Handle, n: nat)
    requires Dated(s) && w in s.writers
    ensures Dated(Apply(s, Prepare(w, Some(n))).0)
  {
    assert forall m :: m in Batch(w, s.next, n) ==> m.birth == s.next;
  }

  lemma MergeDated(s: State, t: Handle, src: Handle)
    requires Dated(s)
    ensures Dated(Apply(s, Merge(t, src)).0)
  {
  }

  lemma OthersDated(s: State, op: Op)
    requires Dated(s) && !op.Prepare? && !op.Merge?
    ensures Dated(Apply(s, op).0)
  {
    hide Dated, Apply;
    var t := Apply(s, op).0;
    if op.Commit? || op.Overwrite? || op.Abort? {
      CallRecords(s, op);
      if t != s {
        CallDated(s, op.messages, t);
      }
    } else {
      OthersAddNothing(s, op);
      FewerDated(s, t);
    }
  }

  lemma CallRecords(s: State, op: Op)
    requires op.Commit? || op.Overwrite? || op.Abort?
    ensures var t := Apply(s, op).0; t != s ==>
      && op.messages in s.messages && t.messages == s.messages && t.next == s.next
      && |t.calls| == |s.calls| + 1 && t.calls[..|s.calls|] == s.calls && t.calls[|s.calls|].list == s.messages[op.messages].list
  {
    hide ValidateCommitContext, CoreOpOf;
  }

  lemma OthersAddNothing(s: State, op: Op)
    requires !op.Prepare? && !op.Merge? && !op.Commit? && !op.Overwrite? && !op.Abort?
    ensures var t := Apply(s, op).0;
      && t.calls == s.calls && t.next >= s.next
      && t.messages == (if op.Free? && op.box.MessagesBox? then s.messages - {op.handle} else s.messages)
  {
    hide HandOver, Batch, ValidateMessageContext;
  }

  lemma CallDated(s: State, h: Handle, t: State)
    requires Dated(s) && h in s.messages && t.messages == s.messages && t.next == s.next
    requires |t.calls| == |s.calls| + 1 && t.calls[..|s.calls|] == s.calls && t.calls[|s.calls|].list == s.messages[h].list
    ensures Dated(t)
  {
    assert forall i :: 0 <= i < |s.calls| ==> t.calls[i] == s.calls[i];
  }

  lemma FewerDated(s: State, t: State)
    requires Dated(s) && t.calls == s.calls && t.next >= s.next
    requires forall h :: h in t.messages ==> h in s.messages && t.messages[h] == s.messages[h]
    ensures Dated(t)
  {
  }

  lemma {:induction false} RunDated(s: State, ops: seq<Op>)
    requires Dated(s)
    ensures Dated(Run(s, ops))
    decreases |ops|
  {
    hide Dated, Apply;
    if ops != [] {
      StaysDated(s, ops[0]);
      RunDated(Apply(s, ops[0]).0, ops[1..]);
    }
  }

  /** After any run, preparing makes exactly as many messages as the writer had pending,
      each once, none of them in any other handle and none handed over before. */
  lemma PreparedAreNew(ops: seq<Op>, w: Handle, n: nat, m: Message)
    ensures var s := Run(INIT, ops); w in s.writers ==>
      var (t, out) := Apply(s, Prepare(w, Some(n)));
      && out.Created? && out.handle in t.messages && |t.messages[out.handle].list| == n
      && multiset(t.messages[out.handle].list)[m] <= 1
      && (m in t.messages[out.handle].list ==>
            && m.writer == w
            && (forall h :: h in s.messages ==> m !in s.messages[h].list)
            && (forall i :: 0 <= i < |s.calls| ==> m !in s.calls[i].list))
  {
    RunDated(INIT, ops);
    hide Run;
    var s := Run(INIT, ops);
    if w in s.writers {
      BatchOnce(w, s.next, n, m);
      assert forall k :: k in Batch(w, s.next, n) ==> k.birth == s.next;
    }
  }

  predicate Distinct(list: seq<Message>) { forall i, j :: 0 <= i < j < |list| ==> list[i] != list[j] }

  /** What a caller can check beforehand: a merge of lists without repetitions has none
      either if and only if they have no message in common. */
  lemma MergeKeepsDistinct(s: State, t: Handle, src: Handle)
    requires Apply(s, Merge(t, src)).1.Done? && Distinct(s.messages[t].list) && Distinct(s.messages[src].list)
    ensures Distinct(Apply(s, Merge(t, src)).0.messages[t].list)
       <==> forall m :: m in s.messages[t].list ==> m !in s.messages[src].list
  {
    var a, b := s.messages[t].list, s.messages[src].list;
    var all := Apply(s, Merge(t, src)).0.messages[t].list;
    assert all == a + b;
    if Distinct(all) {
      forall m | m in a ensures m !in b {
        Apart(a, b, m);
      }
    }
    if forall m :: m in a ==> m !in b {
      forall i, j | 0 <= i < j < |all| ensures all[i] != all[j] {
        if i < |a| <= j {
          assert all[i] in a && all[j] in b;
        } else if |a| <= i {
          assert all[i] == b[i - |a|] && all[j] == b[j - |a|];
        }
      }
    }
  }

  lemma Apart(a: seq<Message>, b: seq<Message>, m: Message)
    requires Distinct(a + b) && m in a
    ensures m !in b
  {
    var i :| 0 <= i < |a| && a[i] == m;
    forall j | 0 <= j < |b| ensures b[j] != m {
      assert (a + b)[i] == m && (a + b)[|a| + j] == b[j];
    }
  }

  const B0 := Handle(Standard, 0)
  const W1 := Handle(Standard, 1)
  const M2 := Handle(Standard, 2)
  const M3 := Handle(Standard, 3)

  /** One message prepared into a handle that is then merged into another, twice. */
  const MERGED_TWICE: seq<Op> :=
    [NewBuilder(Standard, "t", Some("u")), NewWrite(B0, true), Prepare(W1, Some(1)), Prepare(W1, Some(0)), Merge(M3, M2), Merge(M3, M2)]

  lemma MergedTwice()
    ensures var s := Run(INIT, MERGED_TWICE); M3 in s.messages && s.messages[M3].list == [Message(W1, 2, 0), Message(W1, 2, 0)]
  {
    var c := Context("t", "u", false);
    var m := Message(W1, 2, 0);
    var ops := MERGED_TWICE;
    var s2 := Apply(Apply(INIT, ops[0]).0, ops[1]).0;
    assert s2.writers == map[W1 := c] && s2.next == 2 && s2.messages == map[];
    var s4 := Apply(Apply(s2, ops[2]).0, ops[3]).0;
    assert Batch(W1, 2, 1) == [m] && Batch(W1, 3, 0) == [];
    assert s4.messages == map[M2 := Messages(c, [m], Prepared(W1, 2, 1)), M3 := Messages(c, [], Prepared(W1, 3, 0))];
    MergeTwoTimes(s4, m);
    hide Apply;
    RunTwo(INIT, ops);
    RunTwo(s2, ops[2..]);
    RunTwo(s4, ops[4..]);
  }

  lemma MergeTwoTimes(s: State, m: Message)
    requires M2 in s.messages && M3 in s.messages && s.messages[M2].list == [m] && s.messages[M3].list == []
    requires s.messages[M2].context == s.messages[M3].context
    ensures var t := Apply(Apply(s, Merge(M3, M2)).0, Merge(M3, M2)).0; M3 in t.messages && t.messages[M3].list == [m, m]
  {
  }

  lemma RunTwo(s: State, ops: seq<Op>)
    requires |ops| >= 2
    ensures Run(s, ops) == Run(Apply(Apply(s, ops[0]).0, ops[1]).0, ops[2..])
  {
    hide Apply;
    assert ops[1..][1..] == ops[2..];
  }

  // ------------------------------------------------------ the layer as code

  /** The C entry points over the boxes they own. Each method does one `Op`. */
  class NativeWrites {
    var builders: map<Handle, Context>
    var writers: map<Handle, Context>
    var messages: map<Handle, Messages>
    var committers: map<Handle, Context>
    var origins: map<Handle, Context>
    var calls: seq<CoreCall>
    var next: nat

    function Abs(): (s: State)
      reads this
    {
      State(builders, writers, messages, committers, origins, calls, next)
    }

    constructor ()
      ensures Abs() == INIT
    {
      builders, writers, messages, committers, origins := map[], map[], map[], map[], map[];
      calls, next := [], 0;
    }

    method NewWriteBuilder(kind: Kind, table: string, user: Option<string>) returns (r: Outcome)
      modifies this
      ensures (Abs(), r) == Apply(old(Abs()), NewBuilder(kind, table, user))
    {
      if user.None? { return CoreError; }
      var h := Handle(kind, next);
      builders := builders[h := Context(table, user.value, false)];
      next := next + 1;
      r := Created(h);
    }

    method BuilderWithOverwrite(wb: Handle) returns (r: Outcome)
      modifies this
      ensures (Abs(), r) == Apply(old(Abs()), WithOverwrite(wb))
    {
      if wb !in builders { return Rejected(NullPointer); }
      builders := builders[wb := builders[wb].(overwrite := true)];
      r := Done;
    }

    method BuilderNewWrite(wb: Handle, coreOk: bool) returns (r: Outcome)
      modifies this
      ensures (Abs(), r) == Apply(old(Abs()), NewWrite(wb, coreOk))
    {
      if wb !in builders { return Rejected(NullPointer); }
      if !coreOk { return CoreError; }
      var state := builders[wb];
      var h := Handle(wb.kind, next);
      writers := writers[h := Context(state.table, state.user, state.overwrite)];
      origins := origins[h := state];
      next := next + 1;
      r := Created(h);
    }

    method BuilderNewCommit(wb: Handle, coreOk: bool) returns (r: Outcome)
      modifies this
      ensures (Abs(), r) == Apply(old(Abs()), NewCommit(wb, coreOk))
    {
      if wb !in builders { return Rejected(NullPointer); }
      if !coreOk { return CoreError; }
      var state := builders[wb];
      var h := Handle(wb.kind, next);
      committers := committers[h := Context(state.table, state.user, state.overwrite)];
      next := next + 1;
      r := Created(h);
    }

    method WritePrepareCommit(tw: Handle, produced: Option<nat>) returns (r: Outcome)
      modifies this
      ensures (Abs(), r) == Apply(old(Abs()), Prepare(tw, produced))
    {
      if tw !in writers { return Rejected(NullPointer); }
      if produced.None? { return CoreError; }
      var h := Handle(tw.kind, next);
      messages := messages[h := Messages(writers[tw], Batch(tw, next, produced.value), Prepared(tw, next, produced.value))];
      next := next + 1;
      r := Created(h);
    }

    method MessagesMerge(target: Handle, source: Handle) returns (r: Outcome)
      modifies this
      ensures (Abs(), r) == Apply(old(Abs()), Merge(target, source))
    {
      if target !in messages { return Rejected(NullPointer); }
      if source !in messages { return Rejected(NullPointer); }
      if target == source { return Rejected(SameHandle); }
      var t, s := messages[target], messages[source];
      var checked := ValidateMessageContext(t.context, s.context);
      if checked.Some? { return Rejected(checked.value); }
      t := t.(list := t.list + s.list);
      messages := messages[target := t.(lineage := Merged(t.lineage, s.lineage))];
      r := Done;
    }

    method CommitWithIdentifier(tc: Handle, msgs: Handle, identifier: int, filter: bool, coreOk: bool) returns (r: Outcome)
      requires tc.kind == msgs.kind
      modifies this
      ensures (Abs(), r) == Apply(old(Abs()), Commit(tc, msgs, identifier, filter, coreOk))
      ensures calls == old(calls) + (if Reaching(old(Abs()), Commit(tc, msgs, identifier, filter, coreOk))
        then [CoreCall(tc.kind, old(committers)[tc], CoreCommit(identifier, filter), old(messages)[msgs].list)] else [])
    {
      if tc !in committers { return Rejected(NullPointer); }
      if msgs !in messages { return Rejected(NullPointer); }
      var commit, held := committers[tc], messages[msgs];
      var checked := ValidateCommitContext(commit, held.context);
      if checked.Some? { return Rejected(checked.value); }
      if tc.kind.Standard? && held.context.overwrite { return Rejected(OverwriteMessagesInCommit); }
      calls := calls + [CoreCall(tc.kind, commit, CoreCommit(identifier, filter), held.list)];
      r := if coreOk then Done else CoreError;
    }

    method CommitOverwrite(tc: Handle, msgs: Handle, tagged: bool, identifier: int, coreOk: bool) returns (r: Outcome)
      requires tc.kind == msgs.kind == Standard
      modifies this
      ensures (Abs(), r) == Apply(old(Abs()), Overwrite(tc, msgs, tagged, identifier, coreOk))
      ensures calls == old(calls) + (if Reaching(old(Abs()), Overwrite(tc, msgs, tagged, identifier, coreOk))
        then [CoreCall(tc.kind, old(committers)[tc], CoreOverwrite(tagged, identifier), old(messages)[msgs].list)] else [])
    {
      if tc !in committers { return Rejected(NullPointer); }
      if msgs !in messages { return Rejected(NullPointer); }
      var commit, held := committers[tc], messages[msgs];
      var checked := ValidateCommitContext(commit, held.context);
      if checked.Some? { return Rejected(checked.value); }
      if !held.context.overwrite { return Rejected(AppendMessagesInOverwrite); }
      calls := calls + [CoreCall(tc.kind, commit, CoreOverwrite(tagged, identifier), held.list)];
      r := if coreOk then Done else CoreError;
    }

    method CommitAbort(tc: Handle, msgs: Handle, coreOk: bool) returns (r: Outcome)
      requires tc.kind == msgs.kind
      modifies this
      ensures (Abs(), r) == Apply(old(Abs()), Abort(tc, msgs, coreOk))
      ensures calls == old(calls) + (if Reaching(old(Abs()), Abort(tc, msgs, coreOk))
        then [CoreCall(tc.kind, old(committers)[tc], CoreAbort, old(messages)[msgs].list)] else [])
    {
      if tc !in committers { return Rejected(NullPointer); }
      if msgs !in messages { return Rejected(NullPointer); }
      var commit, held := committers[tc], messages[msgs];
      var checked := ValidateCommitContext(commit, held.context);
      if checked.Some? { return Rejected(checked.value); }
      calls := calls + [CoreCall(tc.kind, commit, CoreAbort, held.list)];
      r := if coreOk then Done else CoreError;
    }

    method FreeHandle(box: Box, h: Handle)
      modifies this
      ensures Abs() == Apply(old(Abs()), Free(box, h)).0
    {
      match box
      case BuilderBox => builders := builders - {h};
      case WriterBox => writers := writers - {h};
      case MessagesBox => messages := messages - {h};
      case CommitterBox => committers := committers - {h};
    }
  }
}
