/** Ownership of native predicates in the Go binding. Every Go predicate owns at
most one native predicate and, while it does, one reference to the loaded library.
Combinators consume their arguments; a consumed, nil or repeated argument is refused.

Go predicates are numbered in order of creation; `inner` says which native predicate
each one owns. `gone` records every native predicate handed back to the native side
for consumption or freeing, in order; `built` records what each Go predicate stands
for. Both are history. None stands for a nil argument.
*/
module GoPredicates {
  import opened PredicateTree
  import opened Options

  /** What the caller asked for, before any simplification. */
  datatype Expr = Atom(p: Predicate) | Both(a: Expr, b: Expr) | Either(a: Expr, b: Expr) | Neither(a: Expr)

  datatype State = State(
    inner: seq<Option<nat>>,
    closed: seq<bool>,                // closeOnce has fired
    live: map<nat, Predicate>,        // native predicates that exist
    gone: seq<nat>,
    built: seq<Expr>,
    refs: int,                        // library references taken minus given back
    next: nat,
    filter: Option<Predicate>,        // what the read builder was last given
    wanted: Option<Expr>)             // and what that predicate stood for

  const INIT := State([], [], map[], [], [], 0, 0, None, None)

  datatype Connective = Conj | Disj

  datatype Op =
    | NewLeaf(leaf: Option<Predicate>)                  // None: the native constructor fails
    | Combine(c: Connective, p: Option<nat>, other: Option<nat>)
    | Negation(p: Option<nat>)
    | Fold(c: Connective, preds: seq<Option<nat>>)
    | WithFilter(open: bool, p: Option<nat>)
    | Close(closing: nat)

  predicate Sized(s: State) { |s.inner| == |s.closed| == |s.built| }

  predicate Usable(s: State, p: Option<nat>) { p.Some? && p.value < |s.inner| && s.inner[p.value].Some? }

  function Join(c: Connective, a: Predicate, b: Predicate): (r: Predicate) {
    match c
    case Conj => MakeAnd([a, b])
    case Disj => MakeOr([a, b])
  }

  function JoinExpr(c: Connective, a: Expr, b: Expr): (r: Expr) {
    match c
    case Conj => Both(a, b)
    case Disj => Either(a, b)
  }

  /** Whether combining is accepted: both usable, and not one predicate with itself. */
  predicate Accepts(s: State, p: Option<nat>, other: Option<nat>) {
    Usable(s, p) && Usable(s, other) && p != other
  }

  /** The accepted step: both natives are consumed, the receiver owns the result. */
  function CombineStep(s: State, c: Connective, i: nat, j: nat): (r: State)
    requires Sized(s) && Accepts(s, Some(i), Some(j))
    requires s.inner[i].value in s.live && s.inner[j].value in s.live
  {
    var a, b := s.inner[i].value, s.inner[j].value;
    s.(inner := s.inner[i := Some(s.next)][j := None],
       live := (s.live - {a, b})[s.next := Join(c, s.live[a], s.live[b])],
       gone := s.gone + [a, b],
       built := s.built[i := JoinExpr(c, s.built[i], s.built[j])],
       refs := s.refs - 1,
       next := s.next + 1)
  }

  function NegateStep(s: State, i: nat): (r: State)
    requires Sized(s) && Usable(s, Some(i)) && s.inner[i].value in s.live
  {
    var a := s.inner[i].value;
    s.(inner := s.inner[i := Some(s.next)],
       live := (s.live - {a})[s.next := Negate(s.live[a])],
       gone := s.gone + [a],
       built := s.built[i := Neither(s.built[i])],
       next := s.next + 1)
  }

  /** Giving the native predicate away for good: freed, or moved into the read builder. */
  function GiveUp(s: State, i: nat): (r: State)
    requires Usable(s, Some(i)) && s.inner[i].value in s.live
  {
    s.(inner := s.inner[i := None], live := s.live - {s.inner[i].value}, gone := s.gone + [s.inner[i].value], refs := s.refs - 1)
  }

  /** The n-ary fold from its second argument on: stops at the first refusal. */
  function FoldFrom(s: State, c: Connective, first: Option<nat>, rest: seq<Option<nat>>): (r: (State, bool))
    requires Inv(s)
    decreases |rest|
  {
    if rest == [] then (s, true)
    else if !Accepts(s, first, rest[0]) then (s, false)
    else
      CombineKeeps(s, c, first.value, rest[0].value);
      FoldFrom(CombineStep(s, c, first.value, rest[0].value), c, first, rest[1..])
  }

  /** The new state and whether the call succeeded. */
  function Apply(s: State, op: Op): (r: (State, bool))
    requires Inv(s)
  {
    match op
    case NewLeaf(p) =>
      if p.None? then (s, false) else
        (s.(inner := s.inner + [Some(s.next)], closed := s.closed + [false], live := s.live[s.next := p.value],
            built := s.built + [Atom(p.value)], refs := s.refs + 1, next := s.next + 1), true)
    case Combine(c, p, q) => if Accepts(s, p, q) then (CombineStep(s, c, p.value, q.value), true) else (s, false)
    case Negation(p) => if Usable(s, p) then (NegateStep(s, p.value), true) else (s, false)
    case Fold(c, ps) => if |ps| < 2 then (s, false) else FoldFrom(s, c, ps[0], ps[1..])
    case WithFilter(open, p) =>
      if !open then (s, false)
      else if p.None? then (s, true)
      else if !Usable(s, p) then (s, false)
      else (GiveUp(s, p.value).(filter := Some(s.live[s.inner[p.value].value]), wanted := Some(s.built[p.value])), true)
    case Close(p) =>
      if p >= |s.inner| || s.closed[p] then (s, true)
      else if s.inner[p].None? then (s.(closed := s.closed[p := true]), true)
      else (GiveUp(s, p).(closed := s.closed[p := true]), true)
  }

  function Run(s: State, ops: seq<Op>): (r: State)
    requires Inv(s)
    decreases |ops|
  {
    if ops == [] then s else ApplyKeeps(s, ops[0]); Run(Apply(s, ops[0]).0, ops[1..])
  }

  // -------------------------------------------------------------- invariant

  /** How many Go predicates own a native one. */
  function Owners(inner: seq<Option<nat>>): (n: nat) {
    if inner == [] then 0 else (if inner[|inner| - 1].Some? then 1 else 0) + Owners(inner[..|inner| - 1])
  }

  ghost predicate Linear(s: State) { Matched(s.inner, s.live.Keys) }

  /** Go predicates and native ones, matched one to one. */
  ghost predicate Matched(inner: seq<Option<nat>>, live: set<nat>) {
    // no two Go predicates own the same native one
    && (forall i, j :: 0 <= i < j < |inner| && inner[i].Some? && inner[j].Some? ==> inner[i].value != inner[j].value)
    // what is owned exists, and what exists is owned
    && (forall i :: 0 <= i < |inner| && inner[i].Some? ==> inner[i].value in live)
    && (forall n :: n in live ==> exists i :: 0 <= i < |inner| && inner[i] == Some(n))
  }

  lemma MatchedReplace(inner: seq<Option<nat>>, live: set<nat>, i: nat, n: nat)
    requires Matched(inner, live) && i < |inner| && inner[i].Some? && n !in live
    ensures Matched(inner[i := Some(n)], live - {inner[i].value} + {n})
  {
    var inner', live' := inner[i := Some(n)], live - {inner[i].value} + {n};
    forall m | m in live' ensures exists k :: 0 <= k < |inner'| && inner'[k] == Some(m) {
      if m == n {
        assert inner'[i] == Some(n);
      } else {
        var k :| 0 <= k < |inner| && inner[k] == Some(m);
        assert inner'[k] == Some(m);
      }
    }
  }

  lemma MatchedDrop(inner: seq<Option<nat>>, live: set<nat>, i: nat)
    requires Matched(inner, live) && i < |inner| && inner[i].Some?
    ensures Matched(inner[i := None], live - {inner[i].value})
  {
    var inner', live' := inner[i := None], live - {inner[i].value};
    forall m | m in live' ensures exists k :: 0 <= k < |inner'| && inner'[k] == Some(m) {
      var k :| 0 <= k < |inner| && inner[k] == Some(m);
      assert inner'[k] == Some(m);
    }
  }

  lemma MatchedAppend(inner: seq<Option<nat>>, live: set<nat>, n: nat)
    requires Matched(inner, live) && n !in live
    ensures Matched(inner + [Some(n)], live + {n})
  {
    var inner' := inner + [Some(n)];
    forall m | m in live + {n} ensures exists k :: 0 <= k < |inner'| && inner'[k] == Some(m) {
      if m == n {
        assert inner'[|inner|] == Some(n);
      } else {
        var k :| 0 <= k < |inner| && inner[k] == Some(m);
        assert inner'[k] == Some(m);
      }
    }
  }

  ghost predicate Once(s: State) {
    // nothing is given back twice, or given back and still there
    && (forall i, j :: 0 <= i < j < |s.gone| ==> s.gone[i] != s.gone[j])
    && (forall i :: 0 <= i < |s.gone| ==> s.gone[i] !in s.live && s.gone[i] < s.next)
    && (forall n :: n in s.live ==> n < s.next)
    && (forall n: nat :: n < s.next ==> n in s.live || n in s.gone)
  }

  ghost predicate Inv(s: State) {
    && Sized(s) && Linear(s) && Once(s)
    && s.refs == Owners(s.inner)
    && (forall i :: 0 <= i < |s.closed| && s.closed[i] ==> s.inner[i].None?)
  }

  lemma {:induction false} OwnersUpdate(inner: seq<Option<nat>>, i: nat, v: Option<nat>)
    requires i < |inner|
    ensures Owners(inner[i := v]) == Owners(inner) - (if inner[i].Some? then 1 else 0) + (if v.Some? then 1 else 0)
  {
    var n := |inner| - 1;
    if i == n {
      assert inner[i := v][..n] == inner[..n];
    } else {
      OwnersUpdate(inner[..n], i, v);
      assert inner[i := v][..n] == inner[..n][i := v];
    }
  }

  lemma CombineLinear(s: State, c: Connective, i: nat, j: nat)
    requires Inv(s) && Accepts(s, Some(i), Some(j))
    ensures Linear(CombineStep(s, c, i, j))
  {
    var a, b := s.inner[i].value, s.inner[j].value;
    assert s.next !in s.live && a != b;
    hide Owners, Join, JoinExpr, Matched, Once;
    MatchedReplace(s.inner, s.live.Keys, i, s.next);
    MatchedDrop(s.inner[i := Some(s.next)], s.live.Keys - {a} + {s.next}, j);
    assert CombineStep(s, c, i, j).live.Keys == s.live.Keys - {a} + {s.next} - {b};
  }

  lemma CombineOnce(s: State, c: Connective, i: nat, j: nat)
    requires Inv(s) && Accepts(s, Some(i), Some(j))
    ensures Once(CombineStep(s, c, i, j))
  {
    hide Owners, Join, JoinExpr;
    assert s.inner[i].value != s.inner[j].value;
  }

  lemma CombineKeeps(s: State, c: Connective, i: nat, j: nat)
    requires Inv(s) && Accepts(s, Some(i), Some(j))
    ensures Inv(CombineStep(s, c, i, j))
  {
    hide Linear, Once, Join, JoinExpr;
    CombineLinear(s, c, i, j);
    CombineOnce(s, c, i, j);
    OwnersUpdate(s.inner, i, Some(s.next));
    OwnersUpdate(s.inner[i := Some(s.next)], j, None);
  }

  lemma NegateLinear(s: State, i: nat)
    requires Inv(s) && Usable(s, Some(i))
    ensures Linear(NegateStep(s, i))
  {
    assert s.next !in s.live;
    hide Negate, Owners, Matched, Once;
    MatchedReplace(s.inner, s.live.Keys, i, s.next);
    assert NegateStep(s, i).live.Keys == s.live.Keys - {s.inner[i].value} + {s.next};
  }

  lemma NegateOnce(s: State, i: nat)
    requires Inv(s) && Usable(s, Some(i))
    ensures Once(NegateStep(s, i))
  {
    hide Negate, Owners;
  }

  lemma NegateKeeps(s: State, i: nat)
    requires Inv(s) && Usable(s, Some(i))
    ensures Inv(NegateStep(s, i))
  {
    hide Linear, Once, Negate, Owners;
    OwnedExists(s, Some(i));
    NegateLinear(s, i);
    NegateOnce(s, i);
    OwnersUpdate(s.inner, i, Some(s.next));
  }

  lemma GiveUpLinear(s: State, i: nat)
    requires Inv(s) && Usable(s, Some(i))
    ensures Linear(GiveUp(s, i))
  {
    hide Owners;
    var s' := GiveUp(s, i);
    forall n | n in s'.live ensures exists k :: 0 <= k < |s'.inner| && s'.inner[k] == Some(n) {
      var k :| 0 <= k < |s.inner| && s.inner[k] == Some(n);
      assert s'.inner[k] == Some(n);
    }
  }

  lemma GiveUpOnce(s: State, i: nat)
    requires Inv(s) && Usable(s, Some(i))
    ensures Once(GiveUp(s, i))
  {
    hide Owners;
  }

  lemma GiveUpKeeps(s: State, i: nat)
    requires Inv(s) && Usable(s, Some(i))
    ensures Inv(GiveUp(s, i))
  {
    hide Linear, Once, Owners;
    OwnedExists(s, Some(i));
    GiveUpLinear(s, i);
    GiveUpOnce(s, i);
    OwnersUpdate(s.inner, i, None);
  }

  lemma LeafLinear(s: State, p: Predicate)
    requires Inv(s)
    ensures Linear(Apply(s, NewLeaf(Some(p))).0) && Once(Apply(s, NewLeaf(Some(p))).0)
  {
    hide Owners, Matched;
    assert s.next !in s.live;
    MatchedAppend(s.inner, s.live.Keys, s.next);
    assert Apply(s, NewLeaf(Some(p))).0.live.Keys == s.live.Keys + {s.next};
  }

  lemma LeafKeeps(s: State, p: Predicate)
    requires Inv(s)
    ensures Inv(Apply(s, NewLeaf(Some(p))).0)
  {
    hide Linear, Once, Owners;
    LeafLinear(s, p);
    OwnersAppend(s.inner, Some(s.next));
    var s' := Apply(s, NewLeaf(Some(p))).0;
    forall i | 0 <= i < |s'.closed| && s'.closed[i] ensures s'.inner[i].None? {
      assert i < |s.closed| && s'.closed[i] == s.closed[i] && s'.inner[i] == s.inner[i];
    }
  }

  lemma OwnersAppend(inner: seq<Option<nat>>, v: Option<nat>)
    ensures Owners(inner + [v]) == Owners(inner) + (if v.Some? then 1 else 0)
  {
    assert (inner + [v])[..|inner|] == inner;
  }

  lemma OwnedExists(s: State, p: Option<nat>)
    requires Inv(s)
    ensures Sized(s) && (Usable(s, p) ==> s.inner[p.value].value in s.live)
  {
  }

  lemma {:induction false} FoldKeeps(s: State, c: Connective, first: Option<nat>, rest: seq<Option<nat>>)
    requires Inv(s)
    ensures Inv(FoldFrom(s, c, first, rest).0)
    decreases |rest|
  {
    hide Inv, CombineStep;
    if rest != [] && Accepts(s, first, rest[0]) {
      OwnedExists(s, first);
      OwnedExists(s, rest[0]);
      CombineKeeps(s, c, first.value, rest[0].value);
      FoldKeeps(CombineStep(s, c, first.value, rest[0].value), c, first, rest[1..]);
    }
  }

  lemma ApplyKeeps(s: State, op: Op)
    requires Inv(s)
    ensures Inv(Apply(s, op).0)
  {
    hide Linear, Once, Owners, CombineStep, NegateStep, GiveUp, FoldFrom;
    match op
    case NewLeaf(p) => if p.Some? { LeafKeeps(s, p.value); }
    case Combine(c, p, q) => if Accepts(s, p, q) { CombineKeeps(s, c, p.value, q.value); }
    case Negation(p) => if Usable(s, p) { NegateKeeps(s, p.value); }
    case Fold(c, ps) => if |ps| >= 2 { FoldKeeps(s, c, ps[0], ps[1..]); }
    case WithFilter(open, p) => if open && Usable(s, p) { OwnedExists(s, p); GiveUpKeeps(s, p.value); FilterKeeps(GiveUp(s, p.value)); }
    case Close(p) => CloseKeeps(s, p);
  }

  lemma FilterKeeps(s: State)
    requires Inv(s)
    ensures forall f, e :: Inv(s.(filter := f, wanted := e))
  {
  }

  lemma CloseKeeps(s: State, p: nat)
    requires Inv(s)
    ensures Inv(Apply(s, Close(p)).0)
  {
    if p < |s.inner| && !s.closed[p] && s.inner[p].Some? {
      GiveUpKeeps(s, p);
      var t := GiveUp(s, p);
      assert t.inner[p].None?;
    }
  }

  /** After any sequence of calls, with any aliasing and any reuse: every native
      predicate is given back at most once and never used again, each existing one has
      exactly one owner, and each owner holds exactly one library reference. */
  lemma {:induction false} RunKeeps(s: State, ops: seq<Op>)
    requires Inv(s)
    ensures Inv(Run(s, ops))
    decreases |ops|
  {
    hide Inv, Apply;
    if ops != [] {
      ApplyKeeps(s, ops[0]);
      RunKeeps(Apply(s, ops[0]).0, ops[1..]);
    }
  }

  lemma Linearity(ops: seq<Op>)
    ensures Inv(INIT)
    ensures var s := Run(INIT, ops);
      && (forall i, j :: 0 <= i < j < |s.gone| ==> s.gone[i] != s.gone[j])
      && (forall n: nat :: n < s.next ==> (n in s.live) != (n in s.gone))
      && (forall i, j :: 0 <= i < j < |s.inner| && s.inner[i].Some? && s.inner[j].Some? ==> s.inner[i] != s.inner[j])
      && s.refs == Owners(s.inner)
  {
    hide Run;
    RunKeeps(INIT, ops);
  }

  // --------------------------------------------------------- the n-ary fold

  /** What the arguments of a fold must be for it to go through: usable, and no
      predicate twice. */
  predicate Foldable(s: State, first: Option<nat>, rest: seq<Option<nat>>) {
    && (rest != [] ==> Usable(s, first))
    && (forall i :: 0 <= i < |rest| ==> Usable(s, rest[i]) && rest[i] != first)
    && (forall i, j :: 0 <= i < j < |rest| ==> rest[i] != rest[j])
  }

  lemma {:induction false} FoldSucceeds(s: State, c: Connective, first: Option<nat>, rest: seq<Option<nat>>)
    requires Inv(s)
    ensures FoldFrom(s, c, first, rest).1 <==> Foldable(s, first, rest)
    decreases |rest|
  {
    hide Inv;
    if rest != [] && Accepts(s, first, rest[0]) {
      OwnedExists(s, first);
      OwnedExists(s, rest[0]);
      CombineKeeps(s, c, first.value, rest[0].value);
      var s' := CombineStep(s, c, first.value, rest[0].value);
      FoldSucceeds(s', c, first, rest[1..]);
      FoldableStep(s, c, first, rest);
    }
  }

  /** Combining the first two consumes the second, so it must not come again. */
  lemma FoldableStep(s: State, c: Connective, first: Option<nat>, rest: seq<Option<nat>>)
    requires Inv(s) && rest != [] && Accepts(s, first, rest[0])
    ensures Foldable(CombineStep(s, c, first.value, rest[0].value), first, rest[1..]) <==> Foldable(s, first, rest)
  {
    hide Linear, Once, Owners, Join, JoinExpr;
    OwnedExists(s, first);
    OwnedExists(s, rest[0]);
    var s' := CombineStep(s, c, first.value, rest[0].value);
    assert forall p :: Usable(s', p) <==> Usable(s, p) && p != rest[0];
    var tail := rest[1..];
    assert forall i :: 0 <= i < |tail| ==> tail[i] == rest[i + 1];
    if Foldable(s', first, tail) {
      forall i | 0 <= i < |rest| ensures Usable(s, rest[i]) && rest[i] != first {
        if i > 0 { assert rest[i] == tail[i - 1]; }
      }
      forall i, j | 0 <= i < j < |rest| ensures rest[i] != rest[j] {
        assert rest[j] == tail[j - 1];
        if i > 0 { assert rest[i] == tail[i - 1]; }
      }
    }
  }

  /** How many arguments a fold takes in before it stops. */
  function Taken(s: State, c: Connective, first: Option<nat>, rest: seq<Option<nat>>): (k: nat)
    requires Inv(s)
    ensures k <= |rest|
    decreases |rest|
  {
    if rest == [] || !Accepts(s, first, rest[0]) then 0
    else
      CombineKeeps(s, c, first.value, rest[0].value);
      1 + Taken(CombineStep(s, c, first.value, rest[0].value), c, first, rest[1..])
  }

  /** A fold stops exactly at the first argument it has to refuse. */
  lemma {:induction false} FoldStops(s: State, c: Connective, first: Option<nat>, rest: seq<Option<nat>>)
    requires Inv(s)
    ensures var k := Taken(s, c, first, rest); var t := FoldFrom(s, c, first, rest).0;
      && (FoldFrom(s, c, first, rest).1 <==> k == |rest|)
      && (k < |rest| ==> !Accepts(t, first, rest[k]))
    decreases |rest|
  {
    hide Inv, CombineStep;
    if rest != [] && Accepts(s, first, rest[0]) {
      OwnedExists(s, first);
      OwnedExists(s, rest[0]);
      CombineKeeps(s, c, first.value, rest[0].value);
      FoldStops(CombineStep(s, c, first.value, rest[0].value), c, first, rest[1..]);
    }
  }

  /** A fold that fails has done all it could: the arguments before the refused one are
      consumed and the rest are as they were. What the first argument then owns is the
      subject of FoldCombines. */
  lemma {:induction false} FoldLeaves(s: State, c: Connective, first: Option<nat>, rest: seq<Option<nat>>, p: nat)
    requires Inv(s) && Usable(s, first) && p < |s.inner|
    ensures var k := Taken(s, c, first, rest); var t := FoldFrom(s, c, first, rest).0;
      && |t.inner| == |s.inner| && Usable(t, first)
      && (Some(p) in rest[..k] ==> Usable(s, Some(p)) && !Usable(t, Some(p)))
      && (Some(p) !in rest[..k] && Some(p) != first ==> t.inner[p] == s.inner[p])
    decreases |rest|
  {
    hide Inv;
    if rest != [] && Accepts(s, first, rest[0]) {
      OwnedExists(s, first);
      OwnedExists(s, rest[0]);
      CombineKeeps(s, c, first.value, rest[0].value);
      var s' := CombineStep(s, c, first.value, rest[0].value);
      CombineEffect(s, c, first.value, rest[0].value);
      hide CombineStep;
      FoldLeaves(s', c, first, rest[1..], p);
      var k := Taken(s', c, first, rest[1..]);
      assert rest[..k + 1] == [rest[0]] + rest[1..][..k];
      FoldNeverRevives(s', c, first, rest[1..], rest[0]);
      if Some(p) in rest[1..][..k] && Some(p) != rest[0] {
        assert Usable(s', Some(p));
        assert Some(p) != first;
      }
    }
  }

  /** All of these own a native predicate. */
  predicate AllUsable(s: State, args: seq<Option<nat>>) { forall i :: 0 <= i < |args| ==> Usable(s, args[i]) }

  /** The left fold of what the caller asked for. */
  function FoldExpr(c: Connective, acc: Expr, s: State, args: seq<Option<nat>>): (e: Expr)
    requires Sized(s) && AllUsable(s, args)
    decreases |args|
  {
    if args == [] then acc else FoldExpr(c, JoinExpr(c, acc, s.built[args[0].value]), s, args[1..])
  }

  /** The left fold of the native combinator. */
  function FoldNative(c: Connective, acc: Predicate, s: State, args: seq<Option<nat>>): (p: Predicate)
    requires Inv(s) && AllUsable(s, args)
    decreases |args|
  {
    if args == [] then acc else FoldNative(c, Join(c, acc, Owned(s, args[0])), s, args[1..])
  }

  /** The native predicate a Go predicate owns. */
  function Owned(s: State, p: Option<nat>): (q: Predicate)
    requires Inv(s) && Usable(s, p)
  {
    s.live[s.inner[p.value].value]
  }

  lemma {:induction false} TakenUsable(s: State, c: Connective, first: Option<nat>, rest: seq<Option<nat>>)
    requires Inv(s)
    ensures AllUsable(s, rest[..Taken(s, c, first, rest)]) && first !in rest[..Taken(s, c, first, rest)]
    decreases |rest|
  {
    hide Inv;
    if rest != [] && Accepts(s, first, rest[0]) {
      OwnedExists(s, first);
      OwnedExists(s, rest[0]);
      CombineKeeps(s, c, first.value, rest[0].value);
      var s' := CombineStep(s, c, first.value, rest[0].value);
      CombineEffect(s, c, first.value, rest[0].value);
      hide CombineStep;
      TakenUsable(s', c, first, rest[1..]);
      var k := Taken(s', c, first, rest[1..]);
      var args, tail := rest[..k + 1], rest[1..][..k];
      assert args == [rest[0]] + tail;
      forall i | 0 <= i < |args| ensures Usable(s, args[i]) {
        if i > 0 { assert Usable(s', tail[i - 1]); }
      }
    }
  }

  /** The receiver of a combination stands for the combined expressions and owns the
      combined native predicate. */
  lemma CombineOwns(s: State, c: Connective, i: nat, j: nat)
    requires Inv(s) && Accepts(s, Some(i), Some(j))
    ensures var t := CombineStep(s, c, i, j);
      && Inv(t) && Sized(t) && Usable(t, Some(i)) && i < |t.built|
      && t.built[i] == JoinExpr(c, s.built[i], s.built[j])
      && Owned(t, Some(i)) == Join(c, Owned(s, Some(i)), Owned(s, Some(j)))
  {
    OwnedExists(s, Some(i));
    OwnedExists(s, Some(j));
    CombineKeeps(s, c, i, j);
    hide Inv, Join, JoinExpr;
  }

  /** Two states in which a Go predicate stands for and owns the same. */
  ghost predicate Same(s: State, t: State, p: Option<nat>)
    requires Inv(s) && Inv(t)
  {
    Usable(s, p) && Usable(t, p) && t.built[p.value] == s.built[p.value] && Owned(t, p) == Owned(s, p)
  }

  /** Nobody else who is still usable is affected. */
  lemma CombineSpares(s: State, c: Connective, i: nat, j: nat, p: Option<nat>)
    requires Inv(s) && Accepts(s, Some(i), Some(j)) && Usable(s, p) && p != Some(i) && p != Some(j)
    ensures Inv(CombineStep(s, c, i, j)) && Same(s, CombineStep(s, c, i, j), p)
  {
    CombineKeeps(s, c, i, j);
    OwnedExists(s, Some(i));
    OwnedExists(s, Some(j));
    hide Join, JoinExpr;
    var t := CombineStep(s, c, i, j);
    assert t.inner[p.value] == s.inner[p.value] && t.built[p.value] == s.built[p.value];
    OwnersApart(s, p.value, i);
    OwnersApart(s, p.value, j);
    hide Inv;
  }

  lemma OwnersApart(s: State, k: nat, i: nat)
    requires Inv(s) && Usable(s, Some(k)) && Usable(s, Some(i)) && k != i
    ensures s.inner[k].value in s.live && s.inner[k].value < s.next && s.inner[k].value != s.inner[i].value
  {
    hide Owners;
  }

  lemma {:induction false} FoldSameOperands(s: State, t: State, c: Connective, acc: Expr, native: Predicate, args: seq<Option<nat>>)
    requires Inv(s) && Inv(t) && forall i :: 0 <= i < |args| ==> Same(s, t, args[i])
    ensures AllUsable(s, args) && AllUsable(t, args)
    ensures FoldExpr(c, acc, t, args) == FoldExpr(c, acc, s, args) && FoldNative(c, native, t, args) == FoldNative(c, native, s, args)
    decreases |args|
  {
    OwnedExists(s, None);
    OwnedExists(t, None);
    hide Inv, Join, JoinExpr, Owned;
    if args != [] {
      assert Same(s, t, args[0]) && forall i :: 0 <= i < |args[1..]| ==> args[1..][i] == args[i + 1];
      FoldSameOperands(s, t, c, JoinExpr(c, acc, s.built[args[0].value]), Join(c, native, Owned(s, args[0])), args[1..]);
    }
  }

  /** In `t` the first argument stands for, and owns, the combination from the left of
      what it and `args` were in `s`. */
  ghost predicate Combined(s: State, c: Connective, first: Option<nat>, args: seq<Option<nat>>, t: State)
    requires Inv(s) && Inv(t)
  {
    && Usable(s, first) && Usable(t, first) && AllUsable(s, args)
    && t.built[first.value] == FoldExpr(c, s.built[first.value], s, args)
    && Owned(t, first) == FoldNative(c, Owned(s, first), s, args)
  }

  /** What one combination leaves for the fold of the rest to build on. */
  ghost predicate CombinedOnce(s: State, s': State, c: Connective, i: nat, j: nat, tail: seq<Option<nat>>)
    requires Inv(s) && Inv(s')
  {
    && Usable(s, Some(i)) && Usable(s, Some(j)) && Usable(s', Some(i))
    && s'.built[i] == JoinExpr(c, s.built[i], s.built[j])
    && Owned(s', Some(i)) == Join(c, Owned(s, Some(i)), Owned(s, Some(j)))
    && forall m :: 0 <= m < |tail| ==> Same(s, s', tail[m])
  }

  lemma CombinedStep(s: State, s': State, c: Connective, i: nat, j: nat, tail: seq<Option<nat>>, t: State)
    requires Inv(s) && Inv(s') && Inv(t)
    ensures CombinedOnce(s, s', c, i, j, tail) && Combined(s', c, Some(i), tail, t) ==> Combined(s, c, Some(i), [Some(j)] + tail, t)
  {
    OwnedExists(s, None);
    OwnedExists(s', None);
    hide Inv, Owned, FoldExpr, FoldNative, Join, JoinExpr, Same;
    if CombinedOnce(s, s', c, i, j, tail) && Combined(s', c, Some(i), tail, t) {
      var args := [Some(j)] + tail;
      FoldSameOperands(s, s', c, s'.built[i], Owned(s', Some(i)), tail);
      assert args[0] == Some(j) && args[1..] == tail;
      UsableCons(s, j, tail);
      FoldOperands(c, s.built[i], Owned(s, Some(i)), s, args);
    }
  }

  lemma UsableCons(s: State, j: nat, tail: seq<Option<nat>>)
    requires Usable(s, Some(j)) && AllUsable(s, tail)
    ensures AllUsable(s, [Some(j)] + tail)
  {
  }

  /** That is so wherever a fold stops, with the arguments it took. */
  lemma {:induction false} FoldCombines(s: State, c: Connective, first: Option<nat>, rest: seq<Option<nat>>)
    requires Inv(s) && Usable(s, first)
    ensures Inv(FoldFrom(s, c, first, rest).0)
    ensures Combined(s, c, first, rest[..Taken(s, c, first, rest)], FoldFrom(s, c, first, rest).0)
    decreases |rest|
  {
    hide Inv, CombineStep, Usable, Same, FoldFrom, Taken, Combined, Accepts, Sized;
    if rest != [] && Accepts(s, first, rest[0]) {
      var i, j := Receiver(s, first, rest[0]);
      CombineOwns(s, c, i, j);
      FoldGoesOn(s, c, i, j, rest);
      var s' := CombineStep(s, c, i, j);
      FoldCombines(s', c, first, rest[1..]);
      var tail := rest[1..][..Taken(s', c, first, rest[1..])];
      assert rest[..Taken(s, c, first, rest)] == [Some(j)] + tail;
      TakenUsable(s', c, first, rest[1..]);
      forall m | 0 <= m < |tail| ensures Same(s, s', tail[m]) {
        StillUsable(s, c, i, j, tail[m]);
        CombineSpares(s, c, i, j, tail[m]);
      }
      UsableBoth(s, i, j);
      CombinedStep(s, s', c, i, j, tail, FoldFrom(s', c, first, rest[1..]).0);
    } else {
      FoldEnds(s, c, first, rest);
      assert rest[..0] == [];
    }
  }

  lemma FoldGoesOn(s: State, c: Connective, i: nat, j: nat, rest: seq<Option<nat>>)
    requires Inv(s) && Accepts(s, Some(i), Some(j)) && rest != [] && rest[0] == Some(j)
    ensures Inv(CombineStep(s, c, i, j))
    ensures FoldFrom(s, c, Some(i), rest) == FoldFrom(CombineStep(s, c, i, j), c, Some(i), rest[1..])
    ensures Taken(s, c, Some(i), rest) == 1 + Taken(CombineStep(s, c, i, j), c, Some(i), rest[1..])
  {
    CombineKeeps(s, c, i, j);
    hide Inv, CombineStep;
  }

  lemma FoldEnds(s: State, c: Connective, first: Option<nat>, rest: seq<Option<nat>>)
    requires Inv(s) && Usable(s, first) && (rest == [] || !Accepts(s, first, rest[0]))
    ensures FoldFrom(s, c, first, rest).0 == s && Taken(s, c, first, rest) == 0
    ensures Combined(s, c, first, [], s)
  {
  }

  lemma FoldOperands(c: Connective, acc: Expr, native: Predicate, s: State, args: seq<Option<nat>>)
    requires Inv(s) && Sized(s) && AllUsable(s, args) && args != []
    ensures AllUsable(s, args[1..]) && Usable(s, args[0])
    ensures FoldExpr(c, acc, s, args) == FoldExpr(c, JoinExpr(c, acc, s.built[args[0].value]), s, args[1..])
    ensures FoldNative(c, native, s, args) == FoldNative(c, Join(c, native, Owned(s, args[0])), s, args[1..])
  {
    hide Inv, Join, JoinExpr, Owned;
  }

  lemma UsableBoth(s: State, i: nat, j: nat)
    requires Accepts(s, Some(i), Some(j))
    ensures Usable(s, Some(i)) && Usable(s, Some(j))
  {
  }

  /** Whoever is usable after a combination was so before, and was not consumed. */
  lemma StillUsable(s: State, c: Connective, i: nat, j: nat, p: Option<nat>)
    requires Inv(s) && Accepts(s, Some(i), Some(j))
    ensures s.inner[i].value in s.live && s.inner[j].value in s.live && Sized(s)
    ensures Usable(CombineStep(s, c, i, j), p) ==> Usable(s, p) && p != Some(j)
  {
    OwnedExists(s, Some(i));
    OwnedExists(s, Some(j));
    hide Inv, Join, JoinExpr;
  }

  lemma Receiver(s: State, p: Option<nat>, q: Option<nat>) returns (i: nat, j: nat)
    requires Inv(s) && Accepts(s, p, q)
    ensures p == Some(i) && q == Some(j) && i < |s.inner| && j < |s.inner|
    ensures Sized(s) && s.inner[i].Some? && s.inner[j].Some? && s.inner[i].value in s.live && s.inner[j].value in s.live
  {
    OwnedExists(s, p);
    OwnedExists(s, q);
    i, j := p.value, q.value;
  }

  lemma CombineEffect(s: State, c: Connective, i: nat, j: nat)
    requires Inv(s) && Accepts(s, Some(i), Some(j))
    ensures var t := CombineStep(s, c, i, j);
      && |t.inner| == |s.inner| && Usable(t, Some(i)) && !Usable(t, Some(j))
      && (forall p :: 0 <= p < |s.inner| && p != i && p != j ==> t.inner[p] == s.inner[p])
  {
    hide Linear, Once, Owners, Join, JoinExpr;
    OwnedExists(s, Some(i));
    OwnedExists(s, Some(j));
  }

  lemma {:induction false} FoldNeverRevives(s: State, c: Connective, first: Option<nat>, rest: seq<Option<nat>>, p: Option<nat>)
    requires Inv(s) && !Usable(s, p)
    ensures !Usable(FoldFrom(s, c, first, rest).0, p)
    decreases |rest|
  {
    hide Inv;
    if rest != [] && Accepts(s, first, rest[0]) {
      OwnedExists(s, first);
      OwnedExists(s, rest[0]);
      CombineKeeps(s, c, first.value, rest[0].value);
      var s' := CombineStep(s, c, first.value, rest[0].value);
      CombineEffect(s, c, first.value, rest[0].value);
      assert !Usable(s', p);
      hide CombineStep;
      FoldNeverRevives(s', c, first, rest[1..], p);
    }
  }

  // ---------------------------------------------------------------- meaning

  /** And and Or of two answers, evaluated from the left as a row evaluation does. */
  function Pair(c: Connective, a: Truth, b: Truth): (t: Truth) {
    match c
    case Conj => if a == Known(true) then b else a
    case Disj => if a == Known(false) then b else a
  }

  /** The answer to the caller's expression on any row, nulls and unreadable columns
      included. */
  function Ask(sem: Semantics, row: Row, e: Expr): (t: Truth) {
    match e
    case Atom(p) => Eval(sem, row, p)
    case Both(a, b) => Pair(Conj, Ask(sem, row, a), Ask(sem, row, b))
    case Either(a, b) => Pair(Disj, Ask(sem, row, a), Ask(sem, row, b))
    case Neither(a) => Negated(Ask(sem, row, a))
  }

  predicate Holds(sem: Semantics, row: Row, e: Expr) {
    match e
    case Atom(p) => Eval(sem, row, p) == Known(true)
    case Both(a, b) => Holds(sem, row, a) && Holds(sem, row, b)
    case Either(a, b) => Holds(sem, row, a) || Holds(sem, row, b)
    case Neither(a) => !Holds(sem, row, a)
  }

  predicate ReadableExpr(row: Row, e: Expr) {
    match e
    case Atom(p) => ReadableAt(row, p)
    case Both(a, b) => ReadableExpr(row, a) && ReadableExpr(row, b)
    case Either(a, b) => ReadableExpr(row, a) && ReadableExpr(row, b)
    case Neither(a) => ReadableExpr(row, a)
  }

  /** Where there is an answer it is the Boolean reading, and on readable columns there is. */
  lemma {:induction false} AskIsHolds(sem: Semantics, row: Row, e: Expr)
    ensures Ask(sem, row, e).Known? ==> Ask(sem, row, e) == Known(Holds(sem, row, e))
    ensures ReadableExpr(row, e) ==> Ask(sem, row, e).Known?
  {
    hide Eval, ReadableAt;
    match e
    case Atom(p) => if ReadableAt(row, p) { ReadableIsKnown(sem, row, p); }
    case Both(a, b) => AskIsHolds(sem, row, a); AskIsHolds(sem, row, b);
    case Either(a, b) => AskIsHolds(sem, row, a); AskIsHolds(sem, row, b);
    case Neither(a) => AskIsHolds(sem, row, a);
  }

  lemma JoinMeans(sem: Semantics, row: Row, c: Connective, x: Truth, y: Truth, a: Predicate, b: Predicate)
    requires Refines(x, Eval(sem, row, a)) && Refines(y, Eval(sem, row, b)) && Guarded(row, a) && Guarded(row, b)
    ensures Refines(Pair(c, x, y), Eval(sem, row, Join(c, a, b))) && Guarded(row, Join(c, a, b))
  {
    hide MakeAnd, MakeOr, Eval, Conjunct, Disjunct, Guarded;
    MakeAndMeans(sem, row, [a, b]);
    MakeOrMeans(sem, row, [a, b]);
    PairMeans(sem, row, a, b);
    ConstructorsGuarded(row, a, b);
  }

  lemma NotMeans(sem: Semantics, row: Row, x: Truth, a: Predicate)
    requires Refines(x, Eval(sem, row, a)) && Guarded(row, a)
    ensures Refines(Negated(x), Eval(sem, row, Negate(a))) && Guarded(row, Negate(a))
  {
    assert !(EmptySetTest(a) && row(a.column).Null?);
    hide Eval, Negate, Guarded;
    NegateMeans(sem, row, a);
    ConstructorsGuarded(row, a, a);
  }

  /** A native predicate answers whatever the caller's expression answers. */
  ghost predicate Answers(sem: Semantics, row: Row, e: Expr, p: Predicate) {
    Refines(Ask(sem, row, e), Eval(sem, row, p))
  }

  /** Every native predicate a Go predicate owns, and the filter last installed, does. */
  ghost predicate Faithful(s: State, sem: Semantics, row: Row)
    requires Inv(s)
  {
    && (forall i :: 0 <= i < |s.inner| && s.inner[i].Some? ==> Answers(sem, row, s.built[i], s.live[s.inner[i].value]))
    && (s.filter.Some? ==> s.wanted.Some? && Answers(sem, row, s.wanted.value, s.filter.value))
  }

  /** And none of them holds an empty set test on a null column of this row. */
  ghost predicate Sound(s: State, sem: Semantics, row: Row)
    requires Inv(s)
  {
    && Faithful(s, sem, row)
    && forall i :: 0 <= i < |s.inner| && s.inner[i].Some? ==> Guarded(row, s.live[s.inner[i].value])
  }

  lemma CombineSound(s: State, c: Connective, i: nat, j: nat, sem: Semantics, row: Row)
    requires Inv(s) && Accepts(s, Some(i), Some(j)) && Sound(s, sem, row)
    ensures Inv(CombineStep(s, c, i, j)) && Sound(CombineStep(s, c, i, j), sem, row)
  {
    CombineOwns(s, c, i, j);
    var s' := CombineStep(s, c, i, j);
    OwnedSound(s, i, sem, row);
    OwnedSound(s, j, sem, row);
    JoinAnswers(sem, row, c, s.built[i], s.built[j], Owned(s, Some(i)), Owned(s, Some(j)));
    hide Inv, Owned, Answers, Guarded, Join, JoinExpr;
    forall k: nat | Usable(s', Some(k))
      ensures Answers(sem, row, s'.built[k], Owned(s', Some(k))) && Guarded(row, Owned(s', Some(k)))
    {
      if k != i {
        StillUsable(s, c, i, j, Some(k));
        CombineSpares(s, c, i, j, Some(k));
        OwnedSound(s, k, sem, row);
      }
    }
    AllOwnedSound(s', sem, row);
  }

  lemma OwnedSound(s: State, k: nat, sem: Semantics, row: Row)
    requires Inv(s) && Sound(s, sem, row) && Usable(s, Some(k))
    ensures Sized(s) && Answers(sem, row, s.built[k], Owned(s, Some(k))) && Guarded(row, Owned(s, Some(k)))
  {
    hide Answers, Guarded, Once, Matched;
  }

  lemma AllOwnedSound(s: State, sem: Semantics, row: Row)
    requires Inv(s) && Sized(s) && (s.filter.Some? ==> s.wanted.Some? && Answers(sem, row, s.wanted.value, s.filter.value))
    requires forall k: nat :: Usable(s, Some(k)) ==> Answers(sem, row, s.built[k], Owned(s, Some(k))) && Guarded(row, Owned(s, Some(k)))
    ensures Sound(s, sem, row)
  {
    hide Answers, Guarded, Once, Owners;
    forall k: nat | k < |s.inner| && s.inner[k].Some?
      ensures Answers(sem, row, s.built[k], s.live[s.inner[k].value]) && Guarded(row, s.live[s.inner[k].value])
    {
      assert Usable(s, Some(k));
    }
  }

  lemma JoinAnswers(sem: Semantics, row: Row, c: Connective, e: Expr, f: Expr, a: Predicate, b: Predicate)
    requires Answers(sem, row, e, a) && Answers(sem, row, f, b) && Guarded(row, a) && Guarded(row, b)
    ensures Answers(sem, row, JoinExpr(c, e, f), Join(c, a, b)) && Guarded(row, Join(c, a, b))
  {
    hide Eval, Guarded, Join;
    JoinMeans(sem, row, c, Ask(sem, row, e), Ask(sem, row, f), a, b);
  }

  lemma NegateSound(s: State, i: nat, sem: Semantics, row: Row)
    requires Inv(s) && Usable(s, Some(i)) && Sound(s, sem, row)
    ensures Inv(NegateStep(s, i)) && Sound(NegateStep(s, i), sem, row)
  {
    NegateKeeps(s, i);
    OwnedSound(s, i, sem, row);
    NotMeans(sem, row, Ask(sem, row, s.built[i]), Owned(s, Some(i)));
    var s' := NegateStep(s, i);
    hide Negate, Eval, Guarded;
    NegateOwns(s, i);
    hide Inv, Owned;
    forall k: nat | Usable(s', Some(k))
      ensures Answers(sem, row, s'.built[k], Owned(s', Some(k))) && Guarded(row, Owned(s', Some(k)))
    {
      if k != i {
        NegateSpares(s, i, k);
        OwnedSound(s, k, sem, row);
      }
    }
    AllOwnedSound(s', sem, row);
  }

  lemma NegateOwns(s: State, i: nat)
    requires Inv(s) && Usable(s, Some(i))
    ensures var t := NegateStep(s, i);
      && Inv(t) && Sized(s) && Sized(t) && Usable(t, Some(i)) && t.built[i] == Neither(s.built[i])
      && Owned(t, Some(i)) == Negate(Owned(s, Some(i)))
  {
    NegateKeeps(s, i);
    OwnedExists(s, Some(i));
    hide Inv, Negate;
  }

  lemma NegateSpares(s: State, i: nat, k: nat)
    requires Inv(s) && Usable(s, Some(i)) && Usable(s, Some(k)) && k != i
    ensures Inv(NegateStep(s, i)) && Same(s, NegateStep(s, i), Some(k))
  {
    NegateKeeps(s, i);
    OwnedExists(s, Some(i));
    OwnedExists(s, Some(k));
    OwnersApart(s, k, i);
    hide Inv, Negate;
  }

  lemma GiveUpSound(s: State, i: nat, sem: Semantics, row: Row)
    requires Inv(s) && Usable(s, Some(i)) && Sound(s, sem, row)
    ensures Inv(GiveUp(s, i)) && Sound(GiveUp(s, i), sem, row)
  {
    GiveUpKeeps(s, i);
    hide Once, Owners, Answers, Guarded;
  }

  lemma {:induction false} FoldSound(s: State, c: Connective, first: Option<nat>, rest: seq<Option<nat>>, sem: Semantics, row: Row)
    requires Inv(s) && Sound(s, sem, row)
    ensures Inv(FoldFrom(s, c, first, rest).0) && Sound(FoldFrom(s, c, first, rest).0, sem, row)
    decreases |rest|
  {
    hide Inv, Sound, CombineStep;
    if rest != [] && Accepts(s, first, rest[0]) {
      OwnedExists(s, first);
      OwnedExists(s, rest[0]);
      CombineSound(s, c, first.value, rest[0].value, sem, row);
      FoldSound(CombineStep(s, c, first.value, rest[0].value), c, first, rest[1..], sem, row);
    }
  }

  lemma LeafSound(s: State, p: Predicate, sem: Semantics, row: Row)
    requires Inv(s) && Sound(s, sem, row) && Guarded(row, p)
    ensures Inv(Apply(s, NewLeaf(Some(p))).0) && Sound(Apply(s, NewLeaf(Some(p))).0, sem, row)
  {
    LeafKeeps(s, p);
    LeafOwns(s, p);
    hide Inv, Owned, Eval, Guarded, Apply;
    var s' := Apply(s, NewLeaf(Some(p))).0;
    forall k: nat | Usable(s', Some(k))
      ensures Answers(sem, row, s'.built[k], Owned(s', Some(k))) && Guarded(row, Owned(s', Some(k)))
    {
      if k < |s.inner| {
        LeafSpares(s, p, k);
        OwnedSound(s, k, sem, row);
      }
    }
    AllOwnedSound(s', sem, row);
  }

  lemma LeafOwns(s: State, p: Predicate)
    requires Inv(s)
    ensures var t, n := Apply(s, NewLeaf(Some(p))).0, |s.inner|;
      && Inv(t) && Sized(s) && Sized(t) && |t.inner| == n + 1 && Usable(t, Some(n)) && t.built[n] == Atom(p) && Owned(t, Some(n)) == p
      && t.filter == s.filter && t.wanted == s.wanted
  {
    LeafKeeps(s, p);
    OwnedExists(s, None);
    hide Inv;
  }

  lemma LeafSpares(s: State, p: Predicate, k: nat)
    requires Inv(s) && k < |s.inner|
    ensures Inv(Apply(s, NewLeaf(Some(p))).0)
    ensures Usable(Apply(s, NewLeaf(Some(p))).0, Some(k)) ==> Same(s, Apply(s, NewLeaf(Some(p))).0, Some(k))
  {
    LeafKeeps(s, p);
    OwnedExists(s, Some(k));
    assert s.inner[k].Some? ==> s.inner[k].value < s.next;
    hide Inv;
  }

  lemma CloseSound(s: State, p: nat, sem: Semantics, row: Row)
    requires Inv(s) && Sound(s, sem, row)
    ensures Inv(Apply(s, Close(p)).0) && Sound(Apply(s, Close(p)).0, sem, row)
  {
    CloseKeeps(s, p);
    if p < |s.inner| && !s.closed[p] && s.inner[p].Some? { GiveUpSound(s, p, sem, row); }
    hide Once, Owners, Answers, Guarded;
  }

  lemma FilterSound(s: State, open: bool, p: Option<nat>, sem: Semantics, row: Row)
    requires Inv(s) && Sound(s, sem, row)
    ensures Inv(Apply(s, WithFilter(open, p)).0) && Sound(Apply(s, WithFilter(open, p)).0, sem, row)
  {
    ApplyKeeps(s, WithFilter(open, p));
    hide Once, Owners, Answers, Guarded;
    if open && Usable(s, p) { GiveUpSound(s, p.value, sem, row); }
  }

  /** Leaves handed in do not test a null column of this row against an empty set. */
  predicate Careful(row: Row, op: Op) { op.NewLeaf? && op.leaf.Some? ==> Guarded(row, op.leaf.value) }

  lemma ApplyFaithful(s: State, op: Op, sem: Semantics, row: Row)
    requires Inv(s) && Sound(s, sem, row) && Careful(row, op)
    ensures Inv(Apply(s, op).0) && Sound(Apply(s, op).0, sem, row)
  {
    ApplyKeeps(s, op);
    hide Inv, Sound, CombineStep, NegateStep, GiveUp, FoldFrom;
    match op
    case NewLeaf(p) => if p.Some? { LeafSound(s, p.value, sem, row); }
    case Combine(c, p, q) => if Accepts(s, p, q) { CombineSound(s, c, p.value, q.value, sem, row); }
    case Negation(p) => if Usable(s, p) { NegateSound(s, p.value, sem, row); }
    case Fold(c, ps) => if |ps| >= 2 { FoldSound(s, c, ps[0], ps[1..], sem, row); }
    case WithFilter(open, p) => FilterSound(s, open, p, sem, row);
    case Close(p) => CloseSound(s, p, sem, row);
  }

  /** After any sequence of calls, on every row, each native predicate and the filter last
      installed answer as the expression the caller built, nulls, flattening, absorption
      and failed folds included, as long as no leaf tests a null column against an empty
      set. */
  lemma {:induction false} RunFaithful(s: State, ops: seq<Op>, sem: Semantics, row: Row)
    requires Inv(s) && Sound(s, sem, row) && forall i :: 0 <= i < |ops| ==> Careful(row, ops[i])
    ensures Inv(Run(s, ops)) && Sound(Run(s, ops), sem, row)
    decreases |ops|
  {
    hide Inv, Sound, Apply, Careful;
    RunKeeps(s, ops);
    if ops != [] {
      ApplyFaithful(s, ops[0], sem, row);
      RunFaithful(Apply(s, ops[0]).0, ops[1..], sem, row);
    }
  }

  /** So on a row whose columns can be read, the installed filter holds exactly when the
      caller's expression does. */
  lemma FilterIsTheExpression(ops: seq<Op>, sem: Semantics, row: Row)
    requires forall i :: 0 <= i < |ops| ==> Careful(row, ops[i])
    ensures Run(INIT, ops).filter.Some? <==> exists j: nat :: InstallsAt(ops, j)
    ensures var s := Run(INIT, ops); s.filter.Some? ==>
              && s.wanted.Some?
              && (ReadableExpr(row, s.wanted.value) ==> Eval(sem, row, s.filter.value) == Known(Holds(sem, row, s.wanted.value)))
  {
    hide Run, Eval, Careful;
    RunFaithful(INIT, ops, sem, row);
    var s := Run(INIT, ops);
    FilterIffInstalled(ops);
    assert After(ops) == s;
    hide InstallsAt, After;
    if s.filter.Some? {
      AskIsHolds(sem, row, s.wanted.value);
    }
  }

  /** A fold stands for all of its operands, or for one of them. */
  lemma {:induction false} FoldExprMeans(c: Connective, acc: Expr, s: State, args: seq<Option<nat>>, sem: Semantics, row: Row)
    requires Sized(s) && AllUsable(s, args)
    ensures Holds(sem, row, FoldExpr(c, acc, s, args)) <==>
            if c.Conj? then Holds(sem, row, acc) && forall i :: 0 <= i < |args| ==> Holds(sem, row, s.built[args[i].value])
            else Holds(sem, row, acc) || exists i :: 0 <= i < |args| && Holds(sem, row, s.built[args[i].value])
    decreases |args|
  {
    if args != [] {
      var head, tail := s.built[args[0].value], args[1..];
      FoldExprMeans(c, JoinExpr(c, acc, head), s, tail, sem, row);
      assert Holds(sem, row, JoinExpr(c, acc, head)) <==>
             if c.Conj? then Holds(sem, row, acc) && Holds(sem, row, head) else Holds(sem, row, acc) || Holds(sem, row, head);
      hide Holds, JoinExpr;
      assert forall i :: 0 <= i < |tail| ==> tail[i] == args[i + 1];
      assert forall i :: 1 <= i < |args| ==> args[i] == tail[i - 1];
    }
  }

  // -------------------------------------------------- exactly when it is so

  ghost predicate FaithfulAfter(ops: seq<Op>, sem: Semantics, row: Row) {
    RunKeeps(INIT, ops);
    Faithful(Run(INIT, ops), sem, row)
  }

  /** The run takes its leaves from `atoms`. */
  predicate Uses(ops: seq<Op>, atoms: set<Predicate>) {
    forall i :: 0 <= i < |ops| && ops[i].NewLeaf? && ops[i].leaf.Some? ==> ops[i].leaf.value in atoms
  }

  /** What the native leaf constructors return. */
  predicate IsAtom(p: Predicate) { p.Leaf? || p.AlwaysTrue? || p.AlwaysFalse? }

  /** An empty set test on a null column and its negation are both false, so the negated
      Go predicate does not answer as its caller's expression. */
  lemma NegatedEmptySet(p: Predicate, sem: Semantics, row: Row)
    requires EmptySetTest(p) && row(p.column).Null?
    ensures !FaithfulAfter([NewLeaf(Some(p)), Negation(Some(0))], sem, row)
  {
    hide Run, Inv, Apply;
    StartsEmpty();
    TwoCalls(INIT, NewLeaf(Some(p)), Negation(Some(0)));
    LeafThenNot(INIT, p);
    NegateMeans(sem, row, p);
    var s := Run(INIT, [NewLeaf(Some(p)), Negation(Some(0))]);
    assert Ask(sem, row, s.built[0]) == Known(true);
    assert !Answers(sem, row, s.built[0], s.live[s.inner[0].value]);
  }

  lemma StartsEmpty()
    ensures Inv(INIT)
  {
  }

  lemma TwoCalls(s: State, a: Op, b: Op)
    requires Inv(s)
    ensures Inv(Apply(s, a).0) && Run(s, [a, b]) == Apply(Apply(s, a).0, b).0
  {
    hide Inv, Apply;
    ApplyKeeps(s, a);
    var t := Apply(s, a).0;
    ApplyKeeps(t, b);
    assert [a, b][1..] == [b] && [b][1..] == [];
    assert Run(s, [a, b]) == Run(t, [b]);
    assert Run(t, [b]) == Run(Apply(t, b).0, []);
  }

  /** A leaf made and then negated. */
  lemma LeafThenNot(s: State, p: Predicate)
    requires Inv(s)
    ensures Inv(Apply(s, NewLeaf(Some(p))).0)
    ensures var n, t := |s.inner|, Apply(Apply(s, NewLeaf(Some(p))).0, Negation(Some(|s.inner|))).0;
      && |t.inner| == |t.built| == n + 1 && t.inner[n].Some? && t.inner[n].value in t.live
      && t.live[t.inner[n].value] == Negate(p) && t.built[n] == Neither(Atom(p))
  {
    LeafOwns(s, p);
    var u, n := Apply(s, NewLeaf(Some(p))).0, |s.inner|;
    NegateOwns(u, n);
    OwnedExists(NegateStep(u, n), Some(n));
    hide Inv, Negate;
  }

  /** Every run over these leaves is faithful on a row if and only if none of them tests a
      null column of that row against an empty set. */
  lemma FaithfulExactly(atoms: set<Predicate>, sem: Semantics, row: Row)
    requires forall p :: p in atoms ==> IsAtom(p)
    ensures (forall ops :: Uses(ops, atoms) ==> FaithfulAfter(ops, sem, row))
       <==> forall p :: p in atoms ==> !(EmptySetTest(p) && row(p.column).Null?)
  {
    if forall ops :: Uses(ops, atoms) ==> FaithfulAfter(ops, sem, row) {
      forall p | p in atoms ensures !(EmptySetTest(p) && row(p.column).Null?) {
        var ops: seq<Op> := [NewLeaf(Some(p)), Negation(Some(0))];
        assert Uses(ops, atoms);
        if EmptySetTest(p) && row(p.column).Null? {
          NegatedEmptySet(p, sem, row);
        }
      }
    }
    if forall p :: p in atoms ==> !(EmptySetTest(p) && row(p.column).Null?) {
      forall ops: seq<Op> | Uses(ops, atoms) ensures FaithfulAfter(ops, sem, row) {
        forall i | 0 <= i < |ops| ensures Careful(row, ops[i]) {
          if ops[i].NewLeaf? && ops[i].leaf.Some? { assert ops[i].leaf.value in atoms; }
        }
        RunFaithful(INIT, ops, sem, row);
      }
    }
  }

  // ---------------------------------------------------- what each call does

  /** Nothing but the Go predicates in `touched` changes hands, and no filter is set. */
  ghost predicate Spares(s: State, t: State, touched: set<nat>)
    requires Inv(s) && Inv(t)
  {
    && t.filter == s.filter && t.wanted == s.wanted
    && forall k: nat :: k !in touched && k < |s.inner| ==> k < |t.inner| && Alike(s, t, k)
  }

  /** The Go predicate owns nothing in both, or stands for and owns the same. */
  ghost predicate Alike(s: State, t: State, k: nat)
    requires Inv(s) && Inv(t)
  {
    Usable(t, Some(k)) == Usable(s, Some(k)) && (Usable(s, Some(k)) ==> Same(s, t, Some(k)))
  }

  /** And and Or go through exactly for two different predicates that own something. The
      receiver then owns the combination, the argument owns nothing, both natives are
      gone and one reference is given back; otherwise nothing changes. */
  lemma CombineIs(s: State, c: Connective, p: Option<nat>, q: Option<nat>)
    requires Inv(s)
    ensures Apply(s, Combine(c, p, q)).1 <==> Usable(s, p) && Usable(s, q) && p != q
    ensures Inv(Apply(s, Combine(c, p, q)).0)
    ensures var (t, ok) := Apply(s, Combine(c, p, q));
      if !ok then t == s else
        && Usable(t, p) && !Usable(t, q) && Spares(s, t, {p.value, q.value})
        && t.built[p.value] == (if c.Conj? then Both(s.built[p.value], s.built[q.value]) else Either(s.built[p.value], s.built[q.value]))
        && Owned(t, p) == Join(c, Owned(s, p), Owned(s, q))
        && t.gone == s.gone + [s.inner[p.value].value, s.inner[q.value].value] && t.refs == s.refs - 1 && t.closed == s.closed
  {
    hide Inv, CombineStep, Owned, Join, Alike;
    ApplyKeeps(s, Combine(c, p, q));
    if Accepts(s, p, q) {
      var i, j := Receiver(s, p, q);
      CombineOwns(s, c, i, j);
      CombineEffect(s, c, i, j);
      CombineFields(s, c, i, j);
      forall k: nat | k !in {i, j} && k < |s.inner| ensures Alike(s, CombineStep(s, c, i, j), k) {
        CombineAlike(s, c, i, j, k);
      }
    }
  }

  lemma CombineFields(s: State, c: Connective, i: nat, j: nat)
    requires Sized(s) && Accepts(s, Some(i), Some(j)) && s.inner[i].value in s.live && s.inner[j].value in s.live
    ensures var t := CombineStep(s, c, i, j);
      && t.gone == s.gone + [s.inner[i].value, s.inner[j].value] && t.refs == s.refs - 1 && t.closed == s.closed
      && t.filter == s.filter && t.wanted == s.wanted
  {
    hide Join, JoinExpr;
  }

  lemma CombineAlike(s: State, c: Connective, i: nat, j: nat, k: nat)
    requires Inv(s) && Accepts(s, Some(i), Some(j)) && k < |s.inner| && k != i && k != j
    ensures Inv(CombineStep(s, c, i, j)) && Alike(s, CombineStep(s, c, i, j), k)
  {
    CombineKeeps(s, c, i, j);
    CombineEffect(s, c, i, j);
    if Usable(s, Some(k)) { CombineSpares(s, c, i, j, Some(k)); }
    OwnedExists(s, Some(i));
    OwnedExists(s, Some(j));
    hide Inv, CombineStep, Same;
  }

  /** Not goes through exactly for a predicate that owns something. */
  lemma NegationIs(s: State, p: Option<nat>)
    requires Inv(s)
    ensures Apply(s, Negation(p)).1 <==> Usable(s, p)
    ensures Inv(Apply(s, Negation(p)).0)
    ensures var (t, ok) := Apply(s, Negation(p));
      if !ok then t == s else
        && Usable(t, p) && Spares(s, t, {p.value}) && t.built[p.value] == Neither(s.built[p.value])
        && Owned(t, p) == Negate(Owned(s, p))
        && t.gone == s.gone + [s.inner[p.value].value] && t.refs == s.refs && t.closed == s.closed
  {
    hide Inv, NegateStep, Owned, Negate, Alike;
    ApplyKeeps(s, Negation(p));
    if Usable(s, p) {
      var i := p.value;
      OwnedExists(s, p);
      NegateOwns(s, i);
      NegateFields(s, i);
      forall k: nat | k !in {i} && k < |s.inner| ensures Alike(s, NegateStep(s, i), k) {
        NegateAlike(s, i, k);
      }
    }
  }

  lemma NegateFields(s: State, i: nat)
    requires Sized(s) && Usable(s, Some(i)) && s.inner[i].value in s.live
    ensures var t := NegateStep(s, i);
      && t.gone == s.gone + [s.inner[i].value] && t.refs == s.refs && t.closed == s.closed && |t.inner| == |s.inner|
      && t.filter == s.filter && t.wanted == s.wanted && forall k :: 0 <= k < |s.inner| && k != i ==> t.inner[k] == s.inner[k]
  {
    hide Negate;
  }

  lemma NegateAlike(s: State, i: nat, k: nat)
    requires Inv(s) && Usable(s, Some(i)) && k < |s.inner| && k != i
    ensures Inv(NegateStep(s, i)) && Alike(s, NegateStep(s, i), k)
  {
    NegateKeeps(s, i);
    OwnedExists(s, Some(i));
    NegateFields(s, i);
    if Usable(s, Some(k)) { NegateSpares(s, i, k); }
    hide Inv, NegateStep, Same;
  }

  /** A leaf becomes a new Go predicate that owns it and holds one reference. */
  lemma LeafIs(s: State, p: Option<Predicate>)
    requires Inv(s)
    ensures Apply(s, NewLeaf(p)).1 <==> p.Some?
    ensures Inv(Apply(s, NewLeaf(p)).0)
    ensures var ((t, ok), n) := (Apply(s, NewLeaf(p)), |s.inner|);
      if !ok then t == s else
        && |t.inner| == n + 1 && Usable(t, Some(n)) && Spares(s, t, {}) && t.built[n] == Atom(p.value)
        && Owned(t, Some(n)) == p.value && !t.closed[n] && t.refs == s.refs + 1 && t.gone == s.gone
  {
    hide Inv, Owned, Alike;
    ApplyKeeps(s, NewLeaf(p));
    if p.Some? {
      LeafOwns(s, p.value);
      forall k: nat | k < |s.inner| ensures Alike(s, Apply(s, NewLeaf(p)).0, k) {
        LeafAlike(s, p.value, k);
      }
    }
  }

  lemma LeafAlike(s: State, p: Predicate, k: nat)
    requires Inv(s) && k < |s.inner|
    ensures Inv(Apply(s, NewLeaf(Some(p))).0) && Alike(s, Apply(s, NewLeaf(Some(p))).0, k)
  {
    LeafSpares(s, p, k);
    hide Inv, Same;
  }

  /** Closing frees what the predicate owns, if it owns anything, and gives its reference
      back. */
  lemma CloseIs(s: State, p: nat)
    requires Inv(s)
    ensures Inv(Apply(s, Close(p)).0)
    ensures var t := Apply(s, Close(p)).0;
      && !Usable(t, Some(p)) && Spares(s, t, {p}) && (p < |s.inner| ==> p < |t.closed| && t.closed[p])
      && t.gone == (if Usable(s, Some(p)) then s.gone + [s.inner[p].value] else s.gone)
      && t.refs == (if Usable(s, Some(p)) then s.refs - 1 else s.refs)
  {
    hide Inv, Alike;
    CloseKeeps(s, p);
    OwnedExists(s, Some(p));
    ClosedOwnsNothing(s, p);
    forall k: nat | k != p && k < |s.inner| ensures Alike(s, Apply(s, Close(p)).0, k) {
      CloseAlike(s, p, k);
    }
  }

  /** A second close does nothing. */
  lemma CloseTwice(s: State, p: nat)
    requires Inv(s)
    ensures Inv(Apply(s, Close(p)).0) && Apply(Apply(s, Close(p)).0, Close(p)) == (Apply(s, Close(p)).0, true)
  {
    CloseKeeps(s, p);
    OwnedExists(s, Some(p));
    hide Inv;
  }

  lemma ClosedOwnsNothing(s: State, p: nat)
    requires Inv(s)
    ensures Sized(s) && (p < |s.inner| && s.closed[p] ==> s.inner[p].None?)
  {
  }

  lemma CloseAlike(s: State, p: nat, k: nat)
    requires Inv(s) && k != p && k < |s.inner|
    ensures Inv(Apply(s, Close(p)).0) && Alike(s, Apply(s, Close(p)).0, k)
  {
    hide Inv;
    CloseKeeps(s, p);
    ClosedOwnsNothing(s, p);
    OwnedExists(s, Some(k));
    OwnedExists(s, Some(p));
    if Usable(s, Some(k)) && Usable(s, Some(p)) { OwnersApart(s, k, p); }
  }

  /** The n-ary fold is refused below two arguments, goes through exactly if all arguments
      own something and none comes twice, and wherever it stops the first argument owns
      the combination, from the left, of those taken. */
  lemma FoldIs(s: State, c: Connective, ps: seq<Option<nat>>)
    requires Inv(s)
    ensures Apply(s, Fold(c, ps)).1 <==> |ps| >= 2 && Foldable(s, ps[0], ps[1..])
    ensures Inv(Apply(s, Fold(c, ps)).0)
    ensures |ps| < 2 || !Usable(s, ps[0]) ==> Apply(s, Fold(c, ps)).0 == s
    ensures |ps| >= 2 && Usable(s, ps[0]) ==> Combined(s, c, ps[0], ps[1..][..Taken(s, c, ps[0], ps[1..])], Apply(s, Fold(c, ps)).0)
  {
    ApplyKeeps(s, Fold(c, ps));
    hide Inv, Foldable, Combined;
    if |ps| >= 2 {
      FoldSucceeds(s, c, ps[0], ps[1..]);
      if Usable(s, ps[0]) { FoldCombines(s, c, ps[0], ps[1..]); }
    }
  }

  /** Whether a call installs a filter: it reaches an open builder with a predicate that
      owns something. */
  predicate Installs(s: State, op: Op) { op.WithFilter? && op.open && Usable(s, op.p) }

  /** Installing moves the predicate into the builder for good; a nil predicate on an open
      builder succeeds and changes nothing; anything else is refused and changes nothing. */
  lemma WithFilterIs(s: State, open: bool, p: Option<nat>)
    requires Inv(s)
    ensures Apply(s, WithFilter(open, p)).1 <==> open && (p.None? || Usable(s, p))
    ensures Inv(Apply(s, WithFilter(open, p)).0)
    ensures var t := Apply(s, WithFilter(open, p)).0;
      if !Installs(s, WithFilter(open, p)) then t == s else
        && t.filter == Some(Owned(s, p)) && t.wanted == Some(s.built[p.value]) && !Usable(t, p)
        && (forall k: nat :: k != p.value && k < |s.inner| ==> k < |t.inner| && Alike(s, t, k))
        && t.gone == s.gone + [s.inner[p.value].value] && t.refs == s.refs - 1 && t.closed == s.closed
  {
    hide Inv, Alike;
    ApplyKeeps(s, WithFilter(open, p));
    OwnedExists(s, p);
    if Installs(s, WithFilter(open, p)) {
      forall k: nat | k != p.value && k < |s.inner| ensures Alike(s, Apply(s, WithFilter(open, p)).0, k) {
        InstallAlike(s, p.value, k);
      }
    }
  }

  lemma InstallAlike(s: State, i: nat, k: nat)
    requires Inv(s) && Usable(s, Some(i)) && k < |s.inner| && k != i
    ensures Inv(Apply(s, WithFilter(true, Some(i))).0) && Alike(s, Apply(s, WithFilter(true, Some(i))).0, k)
  {
    hide Inv;
    ApplyKeeps(s, WithFilter(true, Some(i)));
    OwnedExists(s, Some(i));
    OwnedExists(s, Some(k));
    if Usable(s, Some(k)) { OwnersApart(s, k, i); }
  }

  // ---------------------------------------------------- which filter is set

  ghost function After(ops: seq<Op>): (s: State)
    ensures Inv(s)
  {
    StartsEmpty();
    RunKeeps(INIT, ops);
    Run(INIT, ops)
  }

  ghost predicate InstallsAt(ops: seq<Op>, j: nat) { j < |ops| && Installs(After(ops[..j]), ops[j]) }

  ghost predicate LastInstalled(ops: seq<Op>, j: nat) {
    InstallsAt(ops, j) && forall k: nat :: j < k < |ops| ==> !InstallsAt(ops, k)
  }

  /** After any run the builder has a filter exactly if some call installed one. */
  lemma {:induction false} FilterIffInstalled(ops: seq<Op>)
    ensures After(ops).filter.Some? <==> exists j: nat :: InstallsAt(ops, j)
    ensures After(ops).wanted.Some? <==> After(ops).filter.Some?
    decreases |ops|
  {
    hide After, Installs, Inv, Apply;
    if ops == [] {
      StartsUnfiltered();
    } else {
      var n := |ops| - 1;
      FilterIffInstalled(ops[..n]);
      FilterStep(ops);
      forall j: nat | j < n ensures InstallsAt(ops, j) == InstallsAt(ops[..n], j) {
        assert ops[..n][..j] == ops[..j];
      }
      if After(ops[..n]).filter.Some? {
        var j: nat :| InstallsAt(ops[..n], j);
        assert InstallsAt(ops, j);
      }
    }
  }

  /** It is then what the predicate of the last such call owned, and stands for what that
      predicate stood for, just before that call. */
  lemma {:induction false} FilterIsTheLast(ops: seq<Op>, j: nat)
    requires LastInstalled(ops, j)
    ensures var s, p := After(ops[..j]), ops[j].p;
      && Usable(s, p) && Sized(s)
      && After(ops).filter == Some(Owned(s, p)) && After(ops).wanted == Some(s.built[p.value])
    decreases |ops|
  {
    hide After, Owned, Inv, Apply;
    OwnedExists(After(ops[..j]), None);
    var n := |ops| - 1;
    FilterStep(ops);
    if j < n {
      assert !InstallsAt(ops, n);
      LastStays(ops, j);
      FilterIsTheLast(ops[..n], j);
      assert ops[..n][..j] == ops[..j];
    }
  }

  /** So on a row whose columns can be read, that filter holds exactly when what the caller
      installed last does. */
  lemma InstalledFilterMeans(ops: seq<Op>, j: nat, sem: Semantics, row: Row)
    requires LastInstalled(ops, j) && forall i :: 0 <= i < |ops| ==> Careful(row, ops[i])
    ensures var s, p := After(ops[..j]), ops[j].p;
      && Usable(s, p) && Sized(s) && After(ops).filter.Some?
      && (ReadableExpr(row, s.built[p.value]) ==> Eval(sem, row, After(ops).filter.value) == Known(Holds(sem, row, s.built[p.value])))
  {
    FilterIsTheLast(ops, j);
    FilterIsTheExpression(ops, sem, row);
    assert After(ops) == Run(INIT, ops);
    hide After, Run, Eval, Careful, Inv;
  }

  lemma LastStays(ops: seq<Op>, j: nat)
    requires LastInstalled(ops, j) && j < |ops| - 1
    ensures LastInstalled(ops[..|ops| - 1], j)
  {
    hide After, Installs;
    var before := ops[..|ops| - 1];
    forall k: nat | k < |before| ensures InstallsAt(before, k) == InstallsAt(ops, k) {
      assert before[..k] == ops[..k];
    }
  }

  lemma StartsUnfiltered()
    ensures After([]).filter.None? && After([]).wanted.None?
  {
  }

  /** The last call sets the filter if it installs one, and otherwise leaves it. */
  lemma FilterStep(ops: seq<Op>)
    requires ops != []
    ensures var n := |ops| - 1; var s, t := After(ops[..n]), After(ops);
      if InstallsAt(ops, n) then Usable(s, ops[n].p) && Sized(s) && t.filter == Some(Owned(s, ops[n].p)) && t.wanted == Some(s.built[ops[n].p.value])
      else t.filter == s.filter && t.wanted == s.wanted
  {
    var n := |ops| - 1;
    var s := After(ops[..n]);
    AfterSnoc(ops);
    OwnedExists(s, None);
    hide Inv, After, Owned, Apply;
    if ops[n].WithFilter? {
      WithFilterIs(s, ops[n].open, ops[n].p);
    } else {
      FilterUntouched(s, ops[n]);
    }
  }

  lemma FilterUntouched(s: State, op: Op)
    requires Inv(s) && !op.WithFilter?
    ensures Apply(s, op).0.filter == s.filter && Apply(s, op).0.wanted == s.wanted
  {
    match op
    case Combine(c, p, q) =>
      OwnedExists(s, p);
      OwnedExists(s, q);
      hide Inv, Join, JoinExpr;
    case Negation(p) =>
      OwnedExists(s, p);
      hide Inv, Negate;
    case Close(p) =>
      OwnedExists(s, Some(p));
      hide Inv;
    case NewLeaf(p) => hide Inv;
    case Fold(c, ps) => if |ps| >= 2 { FoldLeavesFilter(s, c, ps[0], ps[1..]); hide Inv; }
  }

  lemma {:induction false} FoldLeavesFilter(s: State, c: Connective, first: Option<nat>, rest: seq<Option<nat>>)
    requires Inv(s)
    ensures FoldFrom(s, c, first, rest).0.filter == s.filter && FoldFrom(s, c, first, rest).0.wanted == s.wanted
    decreases |rest|
  {
    hide Inv, Join, JoinExpr;
    if rest != [] && Accepts(s, first, rest[0]) {
      OwnedExists(s, first);
      OwnedExists(s, rest[0]);
      CombineKeeps(s, c, first.value, rest[0].value);
      FoldLeavesFilter(CombineStep(s, c, first.value, rest[0].value), c, first, rest[1..]);
    }
  }

  lemma AfterSnoc(ops: seq<Op>)
    requires ops != []
    ensures After(ops) == Apply(After(ops[..|ops| - 1]), ops[|ops| - 1]).0
  {
    StartsEmpty();
    hide Inv, Apply, Run;
    RunSnoc(INIT, ops);
  }

  lemma {:induction false} RunSnoc(s: State, ops: seq<Op>)
    requires Inv(s) && ops != []
    ensures Inv(Run(s, ops[..|ops| - 1])) && Run(s, ops) == Apply(Run(s, ops[..|ops| - 1]), ops[|ops| - 1]).0
    decreases |ops|
  {
    hide Inv, Apply;
    var n := |ops| - 1;
    RunKeeps(s, ops[..n]);
    ApplyKeeps(s, ops[0]);
    var t := Apply(s, ops[0]).0;
    if n > 0 {
      RunSnoc(t, ops[1..]);
      assert ops[1..][..n - 1] == ops[..n][1..];
    } else {
      assert ops[..0] == [] && ops[1..] == [];
      assert Run(t, []) == t;
    }
  }

  // ------------------------------------------------------------- the objects

  /** The native side: predicates exist or are gone, and the library is counted. */
  class NativeLibrary {
    var live: map<nat, Predicate>
    var next: nat
    var refs: int
    ghost var gone: seq<nat>

    constructor ()
      ensures live == map[] && next == 0 && refs == 0 && gone == []
    {
      live, next, refs, gone := map[], 0, 0, [];
    }

    /** Consumes both inputs: using either again would be a use after free. */
    method PredicateJoin(c: Connective, a: nat, b: nat) returns (n: nat)
      requires a in live && b in live && a != b
      modifies this
      ensures n == old(next) && next == old(next) + 1 && refs == old(refs)
      ensures live == (old(live) - {a, b})[n := Join(c, old(live)[a], old(live)[b])] && gone == old(gone) + [a, b]
    {
      n := next;
      live, next, gone := (live - {a, b})[n := Join(c, live[a], live[b])], next + 1, gone + [a, b];
    }

    method PredicateNot(a: nat) returns (n: nat)
      requires a in live
      modifies this
      ensures n == old(next) && next == old(next) + 1 && refs == old(refs)
      ensures live == (old(live) - {a})[n := Negate(old(live)[a])] && gone == old(gone) + [a]
    {
      n := next;
      live, next, gone := (live - {a})[n := Negate(live[a])], next + 1, gone + [a];
    }

    method PredicateFree(a: nat)
      requires a in live
      modifies this
      ensures live == old(live) - {a} && gone == old(gone) + [a] && next == old(next) && refs == old(refs)
    {
      live, gone := live - {a}, gone + [a];
    }

    /** A leaf constructor. */
    method PredicateLeaf(p: Predicate) returns (n: nat)
      modifies this
      ensures n == old(next) && next == old(next) + 1 && refs == old(refs)
      ensures live == old(live)[n := p] && gone == old(gone)
    {
      n := next;
      live, next := live[n := p], next + 1;
    }

    method Acquire()
      modifies this`refs
      ensures refs == old(refs) + 1
    {
      refs := refs + 1;
    }

    method Release()
      modifies this`refs
      ensures refs == old(refs) - 1
    {
      refs := refs - 1;
    }
  }

  class GoPredicate {
    var inner: Option<nat>
    var closed: bool

    constructor (n: nat)
      ensures inner == Some(n) && !closed
    {
      inner, closed := Some(n), false;
    }
  }

  /** The native read builder's filter, behind a Go read builder that may be closed. */
  class ReadBuilder {
    var open: bool
    var filter: Option<Predicate>

    constructor ()
      ensures open && filter == None
    {
      open, filter := true, None;
    }

    /** The native call: takes the predicate out of its box; a null one clears the filter. */
    method SetFilter(lib: NativeLibrary, a: Option<nat>)
      requires a.Some? ==> a.value in lib.live
      modifies this`filter, lib
      ensures filter == (if a.None? then None else Some(old(lib.live)[a.value]))
      ensures lib.live == (if a.None? then old(lib.live) else old(lib.live) - {a.value})
      ensures lib.gone == (if a.None? then old(lib.gone) else old(lib.gone) + [a.value])
      ensures lib.next == old(lib.next) && lib.refs == old(lib.refs)
    {
      if a.None? {
        filter := None;
      } else {
        filter := Some(lib.live[a.value]);
        lib.PredicateFree(a.value);
      }
    }

    method WithFilter(lib: NativeLibrary, p: GoPredicate?, ghost objs: seq<GoPredicate>, ghost s: State, ghost i: Option<nat>)
      returns (ok: bool)
      requires Inv(s) && Models(lib, objs, s) && Names(objs, p, i) && filter == s.filter
      modifies this`filter, lib, objs
      ensures var (t, done) := Apply(s, Op.WithFilter(open, i)); Models(lib, objs, t) && filter == t.filter && ok == done
      ensures ok <==> open && (i.None? || Usable(s, i))
      ensures open && Usable(s, i) ==> filter == Some(Owned(s, i))
      ensures !(open && Usable(s, i)) ==> filter == old(filter)
    {
      hide Once, Owners;
      if !open { return false; }
      if p == null { return true; }
      if p.inner.None? { return false; }
      SetFilter(lib, p.inner);
      p.inner := None;
      lib.Release();
      ok := true;
    }
  }

  /** The objects are in the state `s`: `objs[k]` is Go predicate `k`. */
  ghost predicate Models(lib: NativeLibrary, objs: seq<GoPredicate>, s: State)
    reads lib, objs
  {
    && |objs| == |s.inner| == |s.closed|
    && (forall k :: 0 <= k < |objs| ==> objs[k].inner == s.inner[k] && objs[k].closed == s.closed[k])
    && (forall k, l :: 0 <= k < l < |objs| ==> objs[k] != objs[l])
    && lib.live == s.live && lib.gone == s.gone && lib.refs == s.refs && lib.next == s.next
  }

  ghost predicate Names(objs: seq<GoPredicate>, p: GoPredicate?, i: Option<nat>) {
    if p == null then i.None? else i.Some? && i.value < |objs| && objs[i.value] == p
  }

  /** A leaf of the predicate builder. */
  method NewPredicate(lib: NativeLibrary, leaf: Option<Predicate>, ghost objs: seq<GoPredicate>, ghost s: State)
    returns (p: GoPredicate?)
    requires Inv(s) && Models(lib, objs, s)
    modifies lib
    ensures (p != null) == Apply(s, NewLeaf(leaf)).1
    ensures p != null ==> fresh(p) && Models(lib, objs + [p], Apply(s, NewLeaf(leaf)).0)
    ensures p == null ==> Models(lib, objs, s)
  {
    if leaf.None? { return null; }
    var n := lib.PredicateLeaf(leaf.value);
    lib.Acquire();
    p := new GoPredicate(n);
  }

  /** And and Or, whatever the two references are. The native contract, two distinct live
      predicates, is met on every path that reaches it. */
  method CombinePredicate(lib: NativeLibrary, c: Connective, p: GoPredicate?, other: GoPredicate?,
                          ghost objs: seq<GoPredicate>, ghost s: State, ghost i: Option<nat>, ghost j: Option<nat>)
    returns (ok: bool)
    requires Inv(s) && Models(lib, objs, s) && Names(objs, p, i) && Names(objs, other, j)
    modifies lib, objs
    ensures Models(lib, objs, Apply(s, Combine(c, i, j)).0) && ok == Apply(s, Combine(c, i, j)).1
  {
    hide Once, Owners, Join;
    if p == null || p.inner.None? { return false; }
    if other == null || other.inner.None? { return false; }
    if p == other { return false; }
    var n := lib.PredicateJoin(c, p.inner.value, other.inner.value);
    p.inner := Some(n);
    other.inner := None;
    lib.Release();
    ok := true;
  }

  method Not(lib: NativeLibrary, p: GoPredicate?, ghost objs: seq<GoPredicate>, ghost s: State, ghost i: Option<nat>)
    returns (ok: bool)
    requires Inv(s) && Models(lib, objs, s) && Names(objs, p, i)
    modifies lib, objs
    ensures Models(lib, objs, Apply(s, Negation(i)).0) && ok == Apply(s, Negation(i)).1
  {
    hide Once, Owners, Negate;
    if p == null || p.inner.None? { return false; }
    var n := lib.PredicateNot(p.inner.value);
    p.inner := Some(n);
    ok := true;
  }

  method ClosePredicate(lib: NativeLibrary, p: GoPredicate, ghost objs: seq<GoPredicate>, ghost s: State, ghost i: nat)
    requires Inv(s) && Models(lib, objs, s) && Names(objs, p, Some(i))
    modifies lib, objs
    ensures Models(lib, objs, Apply(s, Close(i)).0)
  {
    hide Once, Owners;
    if !p.closed {
      p.closed := true;
      if p.inner.Some? {
        lib.PredicateFree(p.inner.value);
        p.inner := None;
        lib.Release();
      }
    }
  }

  /** The n-ary And and Or of the convenience package. */
  method FoldPredicates(lib: NativeLibrary, c: Connective, preds: seq<GoPredicate?>,
                        ghost objs: seq<GoPredicate>, ghost s: State, ghost names: seq<Option<nat>>)
    returns (ok: bool)
    requires Inv(s) && Models(lib, objs, s)
    requires |names| == |preds| && forall k :: 0 <= k < |preds| ==> Names(objs, preds[k], names[k])
    modifies lib, objs
    ensures Models(lib, objs, Apply(s, Fold(c, names)).0) && ok == Apply(s, Fold(c, names)).1
  {
    hide Inv, CombineStep;
    if |preds| < 2 { return false; }
    var result := preds[0];
    ghost var t := s;
    for k := 1 to |preds|
      invariant Inv(t) && Models(lib, objs, t)
      invariant FoldFrom(s, c, names[0], names[1..]) == FoldFrom(t, c, names[0], names[k..])
    {
      assert names[k..][1..] == names[k + 1..];
      ok := CombinePredicate(lib, c, result, preds[k], objs, t, names[0], names[k]);
      OwnedExists(t, names[0]);
      OwnedExists(t, names[k]);
      if !ok { return false; }
      CombineKeeps(t, c, names[0].value, names[k].value);
      t := CombineStep(t, c, names[0].value, names[k].value);
    }
    assert names[|preds|..] == [];
    ok := true;
  }
}
