/** How the Python binding looks for a particular cause inside a finite tree of errors:
the stack of `df_to_py_err`, the recursion of `is_process_fork_unsupported` and the
chain walk of `to_callback_error`.
*/
module ErrorWorklist {
  import opened Options

  datatype Error =
    // Paimon's own errors
    | ForkUnsupported
    | Unsupported
    | DataInvalid(invalidCause: Option<Error>)
    | Unexpected(hiddenCause: Option<Error>)       // not part of the standard chain
    | IoUnexpected(storage: Error)
    | Wrapped(wrappedCause: Error)                 // Avro, Parquet and REST causes
    | OtherPaimon
    // errors of other libraries
    | Opendal(native: bool, opendalCause: Option<Error>)
    | Io(inner: Option<Error>)
    | Collection(errors: seq<Error>)
    | Callback(original: nat)                      // a Python exception, by identity
    | Foreign(foreignCause: Option<Error>)

  predicate IsPaimon(e: Error) {
    e.ForkUnsupported? || e.Unsupported? || e.DataInvalid? || e.Unexpected? || e.IoUnexpected? || e.Wrapped? || e.OtherPaimon?
  }

  /** The standard `source()` chain. An I/O error shows the source of its payload, not
      the payload; a collection shows its first member. */
  function Source(e: Error): (s: Option<Error>) {
    match e
    case DataInvalid(c) => c
    case IoUnexpected(o) => Some(o)
    case Wrapped(c) => Some(c)
    case Opendal(_, c) => c
    case Io(Some(x)) => Source(x)
    case Collection(es) => if es == [] then None else Some(es[0])
    case Foreign(c) => c
    case _ => None
  }

  // ------------------------------------------------------------------ sizes

  function Size(e: Error): (n: nat)
    ensures n > 0
  {
    match e
    case DataInvalid(Some(c)) => 1 + Size(c)
    case Unexpected(Some(c)) => 1 + Size(c)
    case IoUnexpected(c) => 1 + Size(c)
    case Wrapped(c) => 1 + Size(c)
    case Opendal(_, Some(c)) => 1 + Size(c)
    case Io(Some(c)) => 1 + Size(c)
    case Collection(es) => 1 + SizeAll(es)
    case Foreign(Some(c)) => 1 + Size(c)
    case _ => 1
  }

  function SizeAll(es: seq<Error>): (n: nat) {
    if es == [] then 0 else SizeAll(es[..|es| - 1]) + Size(es[|es| - 1])
  }

  lemma {:induction false} SizeAllConcat(a: seq<Error>, b: seq<Error>)
    ensures SizeAll(a + b) == SizeAll(a) + SizeAll(b)
    decreases |b|
  {
    if b == [] {
      assert a + b == a;
    } else {
      SizeAllConcat(a, b[..|b| - 1]);
      assert (a + b)[..|a + b| - 1] == a + b[..|b| - 1];
    }
  }

  lemma {:induction false} SizeIn(es: seq<Error>, i: nat)
    requires i < |es|
    ensures Size(es[i]) <= SizeAll(es)
  {
    if i < |es| - 1 {
      SizeIn(es[..|es| - 1], i);
    }
  }

  lemma {:induction false} SourceIsSmaller(e: Error)
    ensures Source(e).Some? ==> Size(Source(e).value) < Size(e)
    decreases e
  {
    match e
    case Io(Some(x)) => SourceIsSmaller(x);
    case Collection(es) => if es != [] { SizeIn(es, 0); }
    case _ =>
  }

  // -------------------------------------------- is_process_fork_unsupported

  predicate NativeFork(e: Error) { e.Opendal? && e.native }

  /** Whether a Paimon error, or a cause it wraps, rejects inherited native state. */
  predicate Rejects(e: Error)
    decreases Size(e), 0
  {
    match e
    case ForkUnsupported => true
    case DataInvalid(Some(c)) => ChainRejects(c)
    case Unexpected(Some(c)) => ChainRejects(c)
    case IoUnexpected(o) => NativeFork(o)
    case Wrapped(c) => ChainRejects(c)
    case _ => false
  }

  predicate ChainRejects(e: Error)
    decreases Size(e), 1
  {
    if IsPaimon(e) then Rejects(e)
    else if e.Opendal? then NativeFork(e)
    else if e.Io? && e.inner.Some? && ChainRejects(e.inner.value) then true
    else
      SourceIsSmaller(e);
      Source(e).Some? && ChainRejects(Source(e).value)
  }

  // ----------------------------------------------------------- the worklist

  function Children(e: Error): (cs: seq<Error>) {
    if e.Collection? then e.errors else if Source(e).Some? then [Source(e).value] else []
  }

  lemma SizeOfOne(e: Error)
    ensures SizeAll([e]) == Size(e)
  {
    hide Size;
    assert [e][..0] == [];
  }

  lemma ChildrenAreSmaller(e: Error)
    ensures SizeAll(Children(e)) < Size(e)
  {
    SourceIsSmaller(e);
    if !e.Collection? && Source(e).Some? {
      assert [Source(e).value][..0] == [];
    }
  }

  predicate Found(e: Error) { IsPaimon(e) && Rejects(e) }

  /** A path of child positions from `e` to an error that is found. */
  predicate Hits(e: Error, path: seq<nat>)
    decreases |path|
  {
    if path == [] then Found(e)
    else path[0] < |Children(e)| && Hits(Children(e)[path[0]], path[1..])
  }

  ghost predicate Reachable(e: Error) { exists path :: Hits(e, path) }

  ghost predicate AnyReachable(es: seq<Error>) { exists i :: 0 <= i < |es| && Reachable(es[i]) }

  lemma ReachableStep(e: Error)
    ensures Reachable(e) <==> Found(e) || AnyReachable(Children(e))
  {
    if Reachable(e) && !Found(e) {
      var path :| Hits(e, path);
      assert Hits(Children(e)[path[0]], path[1..]);
    }
    if Found(e) {
      assert Hits(e, []);
    }
    if AnyReachable(Children(e)) {
      var i :| 0 <= i < |Children(e)| && Reachable(Children(e)[i]);
      var path :| Hits(Children(e)[i], path);
      var longer: seq<nat> := [i] + path;
      assert longer[1..] == path;
      assert Hits(e, longer);
    }
  }

  /** Taking any one error off the worklist and adding its children loses nothing, and
      makes the worklist smaller. */
  lemma StepKeeps(causes: seq<Error>, i: nat)
    requires i < |causes| && !Found(causes[i])
    ensures var rest := causes[..i] + causes[i + 1..] + Children(causes[i]);
            && (AnyReachable(rest) <==> AnyReachable(causes))
            && SizeAll(rest) < SizeAll(causes)
  {
    hide Reachable, Children, Found;
    var e, kept, cs := causes[i], causes[..i] + causes[i + 1..], Children(causes[i]);
    var rest := kept + cs;
    ReachableStep(e);
    forall k | 0 <= k < |causes| && Reachable(causes[k])
      ensures AnyReachable(rest)
    {
      if k < i {
        assert rest[k] == causes[k];
      } else if k > i {
        assert rest[k - 1] == causes[k];
      } else {
        var m :| 0 <= m < |cs| && Reachable(cs[m]);
        assert rest[|kept| + m] == cs[m];
      }
    }
    forall k | 0 <= k < |rest| && Reachable(rest[k])
      ensures AnyReachable(causes)
    {
      if k < i {
        assert causes[k] == rest[k];
      } else if k < |kept| {
        assert causes[k + 1] == rest[k];
      } else {
        assert cs[k - |kept|] == rest[k];
        assert Reachable(causes[i]);
      }
    }
    StepShrinks(causes, i);
  }

  lemma StepShrinks(causes: seq<Error>, i: nat)
    requires i < |causes|
    ensures SizeAll(causes[..i] + causes[i + 1..] + Children(causes[i])) < SizeAll(causes)
  {
    hide Size, SizeAll, Children;
    var e, a, b := causes[i], causes[..i], causes[i + 1..];
    assert causes == (a + [e]) + b;
    SizeAllConcat(a + [e], b);
    SizeAllConcat(a, [e]);
    SizeOfOne(e);
    SizeAllConcat(a, b);
    SizeAllConcat(a + b, Children(e));
    ChildrenAreSmaller(e);
  }

  /** The loop of `df_to_py_err`: last in, first out. */
  method FindFork(root: Error) returns (found: bool)
    ensures found <==> Reachable(root)
  {
    var causes := [root];
    while causes != []
      invariant AnyReachable(causes) <==> Reachable(root)
      decreases SizeAll(causes)
    {
      var cause := causes[|causes| - 1];
      ReachableStep(cause);
      if Found(cause) { return true; }
      StepKeeps(causes, |causes| - 1);
      assert causes[..|causes| - 1] + causes[|causes|..] == causes[..|causes| - 1];
      causes := causes[..|causes| - 1] + Children(cause);
    }
    found := false;
  }

  /** The same answer whichever waiting error is looked at next. */
  method FindForkInAnyOrder(root: Error) returns (found: bool)
    ensures found <==> Reachable(root)
  {
    var causes := [root];
    while causes != []
      invariant AnyReachable(causes) <==> Reachable(root)
      decreases SizeAll(causes)
    {
      var i: nat :| i < |causes|;
      ReachableStep(causes[i]);
      if Found(causes[i]) { return true; }
      StepKeeps(causes, i);
      causes := causes[..i] + causes[i + 1..] + Children(causes[i]);
    }
    found := false;
  }

  // ------------------------------------------- what the search can overlook

  /** Some error in the tree, however it is attached, rejects inherited native state. */
  predicate Contains(e: Error) {
    match e
    case ForkUnsupported => true
    case DataInvalid(Some(c)) => Contains(c)
    case Unexpected(Some(c)) => Contains(c)
    case IoUnexpected(c) => Contains(c)
    case Wrapped(c) => Contains(c)
    case Opendal(native, c) => native || (c.Some? && Contains(c.value))
    case Io(Some(c)) => Contains(c)
    case Collection(es) => exists i :: 0 <= i < |es| && Contains(es[i])
    case Foreign(Some(c)) => Contains(c)
    case _ => false
  }

  lemma {:induction false} SourceIsContained(e: Error)
    ensures Source(e).Some? && Contains(Source(e).value) ==> Contains(e)
    decreases e
  {
    match e
    case Io(Some(x)) => SourceIsContained(x);
    case _ =>
  }

  lemma {:induction false} ChainIsContained(e: Error)
    ensures Rejects(e) || ChainRejects(e) ==> Contains(e)
    decreases Size(e)
  {
    SourceIsSmaller(e);
    SourceIsContained(e);
    if Source(e).Some? { ChainIsContained(Source(e).value); }
    if IsPaimon(e) { assert ChainRejects(e) == Rejects(e); }
    match e
    case Unexpected(Some(c)) =>
      ChainIsContained(c);
      assert Rejects(e) == ChainRejects(c);
    case Io(Some(c)) => ChainIsContained(c);
    case _ =>
  }

  /** Nothing is reported that is not in the tree. */
  lemma {:induction false} ReportsAreTrue(e: Error, path: seq<nat>)
    requires Hits(e, path)
    ensures Contains(e)
    decreases |path|
  {
    ChainIsContained(e);
    if path != [] {
      ReportsAreTrue(Children(e)[path[0]], path[1..]);
      SourceIsContained(e);
    }
  }

  /** Where a fork error shows. On the worklist (`below` false) every member of a
      collection, the standard causes and the causes a Paimon error wraps are looked at;
      inside a Paimon error (`below` true) a storage error counts by itself, an I/O error
      by its payload, and a collection by its first member. */
  predicate Shown(e: Error, below: bool)
    decreases e, 1
  {
    match e
    case ForkUnsupported => true
    case DataInvalid(Some(c)) => Shown(c, true) || (!below && Shown(c, false))
    case Unexpected(Some(c)) => Shown(c, true)
    case IoUnexpected(o) => NativeFork(o) || (!below && Shown(o, false))
    case Wrapped(c) => Shown(c, true) || (!below && Shown(c, false))
    case Opendal(native, c) => if below then native else c.Some? && Shown(c.value, false)
    case Io(Some(x)) => (below && Shown(x, true)) || CauseShown(x, below)
    case Collection(es) => if below then es != [] && Shown(es[0], true) else exists i :: 0 <= i < |es| && Shown(es[i], false)
    case Foreign(Some(c)) => Shown(c, below)
    case _ => false
  }

  /** Where it shows in the cause an error exposes. */
  predicate CauseShown(e: Error, below: bool)
    decreases e, 0
  {
    match e
    case DataInvalid(Some(c)) => Shown(c, below)
    case IoUnexpected(o) => Shown(o, below)
    case Wrapped(c) => Shown(c, below)
    case Opendal(_, Some(c)) => Shown(c, below)
    case Io(Some(x)) => CauseShown(x, below)
    case Collection(es) => es != [] && Shown(es[0], below)
    case Foreign(Some(c)) => Shown(c, below)
    case _ => false
  }

  lemma {:induction false} CauseIsSource(e: Error, below: bool)
    ensures CauseShown(e, below) <==> Source(e).Some? && Shown(Source(e).value, below)
    decreases e
  {
    match e
    case Io(Some(x)) => CauseIsSource(x, below);
    case _ =>
  }

  lemma {:induction false} ChainShows(e: Error)
    ensures ChainRejects(e) <==> Shown(e, true)
    ensures IsPaimon(e) ==> (Rejects(e) <==> Shown(e, true))
    decreases Size(e)
  {
    SourceIsSmaller(e);
    CauseIsSource(e, true);
    if Source(e).Some? { ChainShows(Source(e).value); }
    match e
    case Unexpected(Some(c)) => ChainShows(c);
    case Io(Some(x)) =>
      ChainShows(x);
      CauseIsSource(x, true);
    case _ =>
  }

  /** The search finds a fork error if and only if one shows. */
  lemma {:induction false} ReachableIsShown(e: Error)
    ensures Reachable(e) <==> Shown(e, false)
    decreases Size(e)
  {
    ReachableStep(e);
    ChainShows(e);
    CauseIsSource(e, false);
    SourceIsSmaller(e);
    if e.Collection? {
      forall i | 0 <= i < |e.errors| ensures Reachable(e.errors[i]) <==> Shown(e.errors[i], false) {
        SizeIn(e.errors, i);
        ReachableIsShown(e.errors[i]);
      }
    } else if Source(e).Some? {
      ReachableIsShown(Source(e).value);
      assert Children(e) == [Source(e).value];
      assert Children(e)[0] == Source(e).value;
    }
    hide Reachable, ChainRejects, Rejects, CauseShown;
    ShownStep(e);
  }

  /** On the worklist: found, or shown by a member or by the exposed cause. */
  lemma ShownStep(e: Error)
    ensures Shown(e, false) <==>
            || (IsPaimon(e) && Shown(e, true))
            || (if e.Collection? then exists i :: 0 <= i < |e.errors| && Shown(e.errors[i], false) else CauseShown(e, false))
  {
  }

  /** The search reports exactly what the tree contains if and only if a fork error that
      is there shows. */
  lemma ExactWhenShown(e: Error)
    ensures (Reachable(e) <==> Contains(e)) <==> (Contains(e) ==> Shown(e, false))
  {
    ReachableIsShown(e);
    if Reachable(e) {
      var path :| Hits(e, path);
      ReportsAreTrue(e, path);
    }
  }

  /** Four ways not to show: as the payload of an I/O error on the worklist, as a native
      storage error there, as a later member of a collection inside a Paimon error, and as
      the cause of a storage error inside one. */
  lemma Overlooked()
    ensures var payload := Foreign(Some(Io(Some(ForkUnsupported)))); Contains(payload) && !Reachable(payload)
    ensures var storage := Opendal(true, None); Contains(storage) && !Reachable(storage)
    ensures var sibling := Unexpected(Some(Collection([OtherPaimon, ForkUnsupported]))); Contains(sibling) && !Reachable(sibling)
    ensures var beneath := Unexpected(Some(Opendal(false, Some(ForkUnsupported)))); Contains(beneath) && !Reachable(beneath)
  {
    hide Reachable, Contains, Shown;
    PayloadHides(ForkUnsupported);
    ReachableIsShown(Foreign(Some(Io(Some(ForkUnsupported)))));
    ReachableIsShown(Opendal(true, None));
    SiblingHides(Collection([OtherPaimon, ForkUnsupported]));
    ReachableIsShown(Unexpected(Some(Collection([OtherPaimon, ForkUnsupported]))));
    StorageHides(ForkUnsupported);
    ReachableIsShown(Unexpected(Some(Opendal(false, Some(ForkUnsupported)))));
  }

  lemma PayloadHides(fork: Error)
    requires fork.ForkUnsupported?
    ensures Contains(Foreign(Some(Io(Some(fork))))) && !Shown(Foreign(Some(Io(Some(fork)))), false)
  {
    assert Contains(Io(Some(fork)));
    assert !Shown(Io(Some(fork)), false);
  }

  lemma StorageHides(fork: Error)
    requires fork.ForkUnsupported?
    ensures Contains(Opendal(true, None)) && !Shown(Opendal(true, None), false)
    ensures Contains(Unexpected(Some(Opendal(false, Some(fork))))) && !Shown(Unexpected(Some(Opendal(false, Some(fork)))), false)
  {
    var storage := Opendal(false, Some(fork));
    assert Contains(storage) && !Shown(storage, true);
  }

  lemma SiblingHides(pair: Error)
    requires pair.Collection? && |pair.errors| == 2 && pair.errors[0].OtherPaimon? && pair.errors[1].ForkUnsupported?
    ensures Contains(Unexpected(Some(pair))) && !Shown(Unexpected(Some(pair)), false)
  {
    assert Contains(pair.errors[1]);
    assert !Shown(pair.errors[0], true);
  }

  // ------------------------------------------------------- to_callback_error

  datatype Raised = Original(id: nat) | ForkSafety | NotImplemented | ValueError

  function ToPyErr(e: Error): (r: Raised) {
    if Rejects(e) then ForkSafety else if e.Unsupported? then NotImplemented else ValueError
  }

  /** The class of a Paimon error: fork safety exactly if a fork error shows in it, else by
      its own kind. */
  lemma PyErrIs(e: Error)
    requires IsPaimon(e)
    ensures ToPyErr(e) == ForkSafety <==> Shown(e, true)
    ensures ToPyErr(e) == NotImplemented <==> e.Unsupported?
    ensures !ToPyErr(e).Original?
  {
    ChainShows(e);
  }

  /** Errors of the query engine become a fork safety error exactly if one shows anywhere
      the search looks, and a value error otherwise. */
  method DfToPyErr(err: Error) returns (r: Raised)
    ensures r == if Shown(err, false) then ForkSafety else ValueError
  {
    ReachableIsShown(err);
    var found := FindFork(err);
    if found { return ForkSafety; }
    r := ValueError;
  }

  function CallbackError(id: nat): (e: Error) { Unexpected(Some(Callback(id))) }

  /** The chain walk looks into causes that the standard chain leaves out. */
  function NextCause(e: Error): (c: Option<Error>) {
    match e
    case Unexpected(c) => c
    case DataInvalid(c) => c
    case _ => Source(e)
  }

  lemma NextIsSmaller(e: Error)
    ensures NextCause(e).Some? ==> Size(NextCause(e).value) < Size(e)
  {
    SourceIsSmaller(e);
  }

  function Chain(e: Error): (es: seq<Error>)
    decreases Size(e)
  {
    NextIsSmaller(e);
    if NextCause(e).Some? then [e] + Chain(NextCause(e).value) else [e]
  }

  function FirstCallback(es: seq<Error>): (r: Option<nat>) {
    if es == [] then None else if es[0].Callback? then Some(es[0].original) else FirstCallback(es[1..])
  }

  function CallbackOf(e: Error): (r: Option<nat>) { FirstCallback(Chain(e)) }

  /** The walk goes from cause to cause until there is none. */
  lemma {:induction false} ChainLinks(e: Error, i: nat)
    requires i < |Chain(e)|
    ensures Chain(e)[0] == e
    ensures NextCause(Chain(e)[i]) == if i + 1 < |Chain(e)| then Some(Chain(e)[i + 1]) else None
    decreases i
  {
    NextIsSmaller(e);
    hide NextCause;
    if NextCause(e).Some? {
      var rest := Chain(NextCause(e).value);
      assert rest[0] == NextCause(e).value;
      if i > 0 { ChainLinks(NextCause(e).value, i - 1); }
    }
  }

  /** What it returns is the first exception on the way, if there is any. */
  lemma {:induction false} FirstIsFirst(es: seq<Error>, id: nat)
    ensures FirstCallback(es) == Some(id) <==>
            exists i :: 0 <= i < |es| && es[i] == Callback(id) && forall k :: 0 <= k < i ==> !es[k].Callback?
  {
    if es != [] {
      var rest := es[1..];
      FirstIsFirst(rest, id);
      if !es[0].Callback? {
        if FirstCallback(rest) == Some(id) {
          var i :| 0 <= i < |rest| && rest[i] == Callback(id) && forall k :: 0 <= k < i ==> !rest[k].Callback?;
          assert es[i + 1] == Callback(id);
          assert forall k :: 1 <= k < i + 1 ==> es[k] == rest[k - 1];
        }
        if i :| 0 <= i < |es| && es[i] == Callback(id) && forall k :: 0 <= k < i ==> !es[k].Callback? {
          assert rest[i - 1] == Callback(id);
          assert forall k :: 0 <= k < i - 1 ==> rest[k] == es[k + 1];
        }
      } else {
        assert es[0] == Callback(es[0].original);
      }
    }
  }

  lemma CallbackStep(e: Error)
    ensures CallbackOf(e) ==
            if e.Callback? then Some(e.original)
            else if NextCause(e).Some? then CallbackOf(NextCause(e).value) else None
  {
    if NextCause(e).Some? {
      assert ([e] + Chain(NextCause(e).value))[1..] == Chain(NextCause(e).value);
    } else {
      assert Chain(e) == [e] && [e][1..] == [];
      assert FirstCallback([e][1..]) == None;
    }
  }

  method ToCallbackError(error: Error) returns (r: Raised)
    ensures r == match CallbackOf(error) case Some(id) => Original(id) case None => ToPyErr(error)
  {
    var cause := error;
    while true
      invariant CallbackOf(cause) == CallbackOf(error)
      decreases Size(cause)
    {
      CallbackStep(cause);
      if cause.Callback? { return Original(cause.original); }
      NextIsSmaller(cause);
      match NextCause(cause)
      case Some(source) => cause := source;
      case None => break;
    }
    r := ToPyErr(error);
  }

  /** One layer put around an error: as a cause, as the payload of an I/O error, or as a
      member of a collection at any position. */
  datatype Wrapper =
    | AsInvalid | AsUnexpected | AsWrapped | AsStorage | AsOpendal(native: bool) | AsForeign
    | AsPayload
    | AsMember(before: seq<Error>, after: seq<Error>)

  function Wrap(w: Wrapper, e: Error): (r: Error) {
    match w
    case AsInvalid => DataInvalid(Some(e))
    case AsUnexpected => Unexpected(Some(e))
    case AsWrapped => Wrapped(e)
    case AsStorage => IoUnexpected(e)
    case AsOpendal(native) => Opendal(native, Some(e))
    case AsForeign => Foreign(Some(e))
    case AsPayload => Io(Some(e))
    case AsMember(before, after) => Collection(before + [e] + after)
  }

  function WrapAll(ws: seq<Wrapper>, e: Error): (r: Error) {
    if ws == [] then e else Wrap(ws[0], WrapAll(ws[1..], e))
  }

  /** Whether the walk gets through a stack of layers, outermost first. A collection is
      left by its first member, so a later member survives only if that one leads to the
      same exception. */
  predicate Survives(ws: seq<Wrapper>, id: nat)
    decreases |ws|, 1
  {
    if ws == [] then true
    else if ws[0].AsPayload? then SurvivesBehind(ws[1..], id)
    else if ws[0].AsMember? && ws[0].before != [] then CallbackOf(ws[0].before[0]) == Some(id)
    else Survives(ws[1..], id)
  }

  /** Whether it gets through when the outermost error itself is skipped and only the
      cause it exposes is seen. A hidden cause is then lost, the callback error's own
      included. */
  predicate SurvivesBehind(ws: seq<Wrapper>, id: nat)
    decreases |ws|, 0
  {
    if ws == [] || ws[0].AsUnexpected? then false
    else if ws[0].AsPayload? then SurvivesBehind(ws[1..], id)
    else if ws[0].AsMember? && ws[0].before != [] then CallbackOf(ws[0].before[0]) == Some(id)
    else Survives(ws[1..], id)
  }

  function CallbackBehind(e: Error): (r: Option<nat>) {
    if Source(e).Some? then CallbackOf(Source(e).value) else None
  }

  /** A Python exception raised inside a callback comes back as the same exception, through
      any layers, if and only if the stack of layers lets it. */
  lemma {:induction false} CallbackRoundTrip(ws: seq<Wrapper>, id: nat)
    ensures CallbackOf(WrapAll(ws, CallbackError(id))) == Some(id) <==> Survives(ws, id)
    ensures CallbackBehind(WrapAll(ws, CallbackError(id))) == Some(id) <==> SurvivesBehind(ws, id)
    decreases |ws|
  {
    if ws == [] {
      CallbackStep(CallbackError(id));
      CallbackStep(Callback(id));
    } else {
      hide CallbackOf, Wrap, CallbackBehind;
      var inner := WrapAll(ws[1..], CallbackError(id));
      CallbackRoundTrip(ws[1..], id);
      WrapStep(ws[0], inner);
    }
  }

  /** One layer: most lead on to the error inside, a collection to its first member, an I/O
      error to the cause its payload exposes; and what the layer itself exposes. */
  lemma WrapStep(w: Wrapper, e: Error)
    ensures CallbackOf(Wrap(w, e)) ==
            if w.AsPayload? then CallbackBehind(e)
            else if w.AsMember? && w.before != [] then CallbackOf(w.before[0]) else CallbackOf(e)
    ensures CallbackBehind(Wrap(w, e)) ==
            if w.AsUnexpected? then None
            else if w.AsPayload? then CallbackBehind(e)
            else if w.AsMember? && w.before != [] then CallbackOf(w.before[0]) else CallbackOf(e)
  {
    hide CallbackOf;
    CallbackStep(Wrap(w, e));
    if w.AsMember? {
      assert (w.before + [e] + w.after)[0] == if w.before != [] then w.before[0] else e;
    }
  }

  /** Two layers that lose it: an I/O error right around the callback error, and a
      collection in which something else comes first. */
  lemma CallbackLost(id: nat)
    ensures CallbackOf(Io(Some(CallbackError(id)))) == None
    ensures CallbackOf(Collection([OtherPaimon, CallbackError(id)])) == None
  {
    hide CallbackOf;
    var inner := CallbackError(id);
    assert Source(inner) == None && Source(Io(Some(inner))) == None;
    CallbackStep(Io(Some(inner)));
    CallbackStep(Collection([OtherPaimon, CallbackError(id)]));
    CallbackStep(OtherPaimon);
  }
}
