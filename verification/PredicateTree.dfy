/** Filter predicates: the tree, the simplifying constructors the native
combinators use, and row evaluation.

Columns are numbers and datums are opaque integers. `Semantics` supplies what the
tree does not decide: equality of datums, and every comparison other than the null
tests and set membership.
*/
module PredicateTree {

  datatype Operator = IsNull | IsNotNull | In | NotIn | Other(code: nat)

  datatype Predicate =
    | Leaf(column: nat, op: Operator, literals: seq<int>)
    | And(conjuncts: seq<Predicate>)
    | Or(disjuncts: seq<Predicate>)
    | Not(inner: Predicate)
    | AlwaysTrue
    | AlwaysFalse

  /** What reading a column of a row gives. */
  datatype Cell = Unreadable | Null | Datum(value: int)

  type Row = nat -> Cell

  datatype Semantics = Semantics(equal: (int, int) -> bool, other: (nat, int, seq<int>) -> bool)

  /** None where evaluation returns an error. */
  datatype Truth = Error | Known(holds: bool)

  predicate AnyEqual(sem: Semantics, v: int, literals: seq<int>) {
    exists i :: 0 <= i < |literals| && sem.equal(v, literals[i])
  }

  function EvalLeaf(sem: Semantics, cell: Cell, op: Operator, literals: seq<int>): (t: Truth) {
    match cell
    case Unreadable => Error
    case Null => Known(op.IsNull?)
    case Datum(v) =>
      match op
      case IsNull => Known(false)
      case IsNotNull => Known(true)
      case In => Known(AnyEqual(sem, v, literals))
      case NotIn => Known(!AnyEqual(sem, v, literals))
      case Other(code) => Known(sem.other(code, v, literals))
  }

  function Eval(sem: Semantics, row: Row, p: Predicate): (t: Truth)
    decreases p, 0
  {
    match p
    case AlwaysTrue => Known(true)
    case AlwaysFalse => Known(false)
    case And(ps) => EvalAll(sem, row, ps)
    case Or(ps) => EvalAny(sem, row, ps)
    case Not(q) => Negated(Eval(sem, row, q))
    case Leaf(column, op, literals) => EvalLeaf(sem, row(column), op, literals)
  }

  function EvalAll(sem: Semantics, row: Row, ps: seq<Predicate>): (t: Truth)
    decreases ps
  {
    if ps == [] then Known(true) else
      var first := Eval(sem, row, ps[0]);
      if first == Known(true) then EvalAll(sem, row, ps[1..]) else first
  }

  function EvalAny(sem: Semantics, row: Row, ps: seq<Predicate>): (t: Truth)
    decreases ps
  {
    if ps == [] then Known(false) else
      var first := Eval(sem, row, ps[0]);
      if first == Known(false) then EvalAny(sem, row, ps[1..]) else first
  }

  function Negated(t: Truth): (r: Truth) {
    match t
    case Error => Error
    case Known(b) => Known(!b)
  }

  // -------------------------------------------------------- constructors

  predicate Doomed(out: seq<Predicate>) { out != [] && out[0].AlwaysFalse? }

  predicate Settled(out: seq<Predicate>) { out != [] && out[0].AlwaysTrue? }

  function FlattenAnd(ps: seq<Predicate>, out: seq<Predicate>): (r: seq<Predicate>)
    decreases ps
  {
    if ps == [] then out else
      match ps[0]
      case AlwaysFalse => [AlwaysFalse]
      case AlwaysTrue => if Doomed(out) then out else FlattenAnd(ps[1..], out)
      case And(children) =>
        var next := FlattenAnd(children, out);
        if Doomed(next) then next else FlattenAnd(ps[1..], next)
      case other =>
        var next := out + [other];
        if Doomed(next) then next else FlattenAnd(ps[1..], next)
  }

  function MakeAnd(ps: seq<Predicate>): (r: Predicate) {
    var flat := FlattenAnd(ps, []);
    if flat == [] then AlwaysTrue else if |flat| == 1 then flat[0] else And(flat)
  }

  function FlattenOr(ps: seq<Predicate>, out: seq<Predicate>): (r: seq<Predicate>)
    decreases ps
  {
    if ps == [] then out else
      match ps[0]
      case AlwaysTrue => [AlwaysTrue]
      case AlwaysFalse => if Settled(out) then out else FlattenOr(ps[1..], out)
      case Or(children) =>
        var next := FlattenOr(children, out);
        if Settled(next) then next else FlattenOr(ps[1..], next)
      case other =>
        var next := out + [other];
        if Settled(next) then next else FlattenOr(ps[1..], next)
  }

  function MakeOr(ps: seq<Predicate>): (r: Predicate) {
    var flat := FlattenOr(ps, []);
    if flat == [] then AlwaysFalse else if |flat| == 1 then flat[0] else Or(flat)
  }

  function Negate(p: Predicate): (r: Predicate) {
    match p
    case Not(q) => q
    case AlwaysTrue => AlwaysFalse
    case AlwaysFalse => AlwaysTrue
    case Leaf(column, op, literals) =>
      if literals == [] && op.In? then Leaf(column, NotIn, literals)
      else if literals == [] && op.NotIn? then Leaf(column, In, literals)
      else Not(p)
    case _ => Not(p)
  }

  // -------------------------------------------------------------- meaning

  lemma {:induction false} EvalAllAppend(sem: Semantics, row: Row, a: seq<Predicate>, b: seq<Predicate>)
    ensures EvalAll(sem, row, a + b)
         == if EvalAll(sem, row, a) == Known(true) then EvalAll(sem, row, b) else EvalAll(sem, row, a)
  {
    hide Eval;
    if a == [] {
      assert a + b == b;
    } else {
      EvalAllAppend(sem, row, a[1..], b);
      assert (a + b)[1..] == a[1..] + b;
    }
  }

  lemma {:induction false} EvalAnyAppend(sem: Semantics, row: Row, a: seq<Predicate>, b: seq<Predicate>)
    ensures EvalAny(sem, row, a + b)
         == if EvalAny(sem, row, a) == Known(false) then EvalAny(sem, row, b) else EvalAny(sem, row, a)
  {
    hide Eval;
    if a == [] {
      assert a + b == b;
    } else {
      EvalAnyAppend(sem, row, a[1..], b);
      assert (a + b)[1..] == a[1..] + b;
    }
  }

  /** Children that may stand under an And: flattening leaves only these, or a lone False. */
  predicate Conjunct(p: Predicate) { !p.And? && !p.AlwaysTrue? && !p.AlwaysFalse? }

  predicate Disjunct(p: Predicate) { !p.Or? && !p.AlwaysTrue? && !p.AlwaysFalse? }

  predicate FlatAnd(out: seq<Predicate>) {
    out == [AlwaysFalse] || forall i :: 0 <= i < |out| ==> Conjunct(out[i])
  }

  predicate FlatOr(out: seq<Predicate>) {
    out == [AlwaysTrue] || forall i :: 0 <= i < |out| ==> Disjunct(out[i])
  }

  lemma {:induction false} FlattenAndShape(ps: seq<Predicate>, out: seq<Predicate>)
    requires FlatAnd(out) && !Doomed(out)
    ensures FlatAnd(FlattenAnd(ps, out))
    decreases ps
  {
    if ps != [] {
      match ps[0]
      case AlwaysFalse =>
      case AlwaysTrue => FlattenAndShape(ps[1..], out);
      case And(children) =>
        FlattenAndShape(children, out);
        var next := FlattenAnd(children, out);
        if !Doomed(next) { FlattenAndShape(ps[1..], next); }
      case other => if !Doomed(out + [other]) { FlattenAndShape(ps[1..], out + [other]); }
    }
  }

  lemma {:induction false} FlattenOrShape(ps: seq<Predicate>, out: seq<Predicate>)
    requires FlatOr(out) && !Settled(out)
    ensures FlatOr(FlattenOr(ps, out))
    decreases ps
  {
    if ps != [] {
      match ps[0]
      case AlwaysTrue =>
      case AlwaysFalse => FlattenOrShape(ps[1..], out);
      case Or(children) =>
        FlattenOrShape(children, out);
        var next := FlattenOr(children, out);
        if !Settled(next) { FlattenOrShape(ps[1..], next); }
      case other => if !Settled(out + [other]) { FlattenOrShape(ps[1..], out + [other]); }
    }
  }

  /** The simplified form answers whatever the plain form answers. It may also answer
      where the plain form fails, because a False absorbs what stands before it. */
  predicate Refines(plain: Truth, simple: Truth) { plain.Known? ==> simple == plain }

  lemma {:induction false} FlattenAndMeans(sem: Semantics, row: Row, ps: seq<Predicate>, out: seq<Predicate>)
    requires !Doomed(out)
    ensures Refines(EvalAll(sem, row, out + ps), EvalAll(sem, row, FlattenAnd(ps, out)))
    ensures Doomed(FlattenAnd(ps, out)) ==> FlattenAnd(ps, out) == [AlwaysFalse]
    decreases ps
  {
    if ps == [] {
      assert out + ps == out;
    } else {
      var p, rest := ps[0], ps[1..];
      assert ps == [p] + rest;
      EvalAllAppend(sem, row, out, ps);
      match p
      case AlwaysFalse => assert [AlwaysFalse][1..] == [];
      case AlwaysTrue =>
        FlattenAndMeans(sem, row, rest, out);
        EvalAllAppend(sem, row, out, rest);
      case And(children) =>
        FlattenAndMeans(sem, row, children, out);
        EvalAllAppend(sem, row, out, children);
        var next := FlattenAnd(children, out);
        if Doomed(next) {
          assert [AlwaysFalse][1..] == [];
        } else {
          FlattenAndMeans(sem, row, rest, next);
          EvalAllAppend(sem, row, next, rest);
        }
      case other =>
        var next := out + [other];
        assert out + ps == next + rest;
        FlattenAndMeans(sem, row, rest, next);
    }
  }

  lemma {:induction false} FlattenOrMeans(sem: Semantics, row: Row, ps: seq<Predicate>, out: seq<Predicate>)
    requires !Settled(out)
    ensures Refines(EvalAny(sem, row, out + ps), EvalAny(sem, row, FlattenOr(ps, out)))
    ensures Settled(FlattenOr(ps, out)) ==> FlattenOr(ps, out) == [AlwaysTrue]
    decreases ps
  {
    if ps == [] {
      assert out + ps == out;
    } else {
      var p, rest := ps[0], ps[1..];
      assert ps == [p] + rest;
      EvalAnyAppend(sem, row, out, ps);
      match p
      case AlwaysTrue => assert [AlwaysTrue][1..] == [];
      case AlwaysFalse =>
        FlattenOrMeans(sem, row, rest, out);
        EvalAnyAppend(sem, row, out, rest);
      case Or(children) =>
        FlattenOrMeans(sem, row, children, out);
        EvalAnyAppend(sem, row, out, children);
        var next := FlattenOr(children, out);
        if Settled(next) {
          assert [AlwaysTrue][1..] == [];
        } else {
          FlattenOrMeans(sem, row, rest, next);
          EvalAnyAppend(sem, row, next, rest);
        }
      case other =>
        var next := out + [other];
        assert out + ps == next + rest;
        FlattenOrMeans(sem, row, rest, next);
    }
  }

  lemma OneConjunct(sem: Semantics, row: Row, p: Predicate)
    ensures EvalAll(sem, row, [p]) == Eval(sem, row, p) && EvalAny(sem, row, [p]) == Eval(sem, row, p)
  {
    hide Eval;
    assert [p][1..] == [];
  }

  lemma PairMeans(sem: Semantics, row: Row, a: Predicate, b: Predicate)
    ensures Eval(sem, row, And([a, b])) == if Eval(sem, row, a) == Known(true) then Eval(sem, row, b) else Eval(sem, row, a)
    ensures Eval(sem, row, Or([a, b])) == if Eval(sem, row, a) == Known(false) then Eval(sem, row, b) else Eval(sem, row, a)
  {
    OneConjunct(sem, row, b);
    assert [a, b][1..] == [b];
  }

  /** Conjunction built with flattening and absorption means the plain conjunction, and
      has no And, True or False directly under it. */
  lemma MakeAndMeans(sem: Semantics, row: Row, ps: seq<Predicate>)
    ensures Refines(Eval(sem, row, And(ps)), Eval(sem, row, MakeAnd(ps)))
    ensures MakeAnd(ps).And? ==> |MakeAnd(ps).conjuncts| > 1 && forall i :: 0 <= i < |MakeAnd(ps).conjuncts| ==> Conjunct(MakeAnd(ps).conjuncts[i])
  {
    hide FlattenAnd, EvalAll;
    var flat := FlattenAnd(ps, []);
    FlattenAndMeans(sem, row, ps, []);
    FlattenAndShape(ps, []);
    assert [] + ps == ps;
    if |flat| == 1 { OneConjunct(sem, row, flat[0]); assert flat == [flat[0]]; }
    NoConjuncts(sem, row);
  }

  lemma MakeOrMeans(sem: Semantics, row: Row, ps: seq<Predicate>)
    ensures Refines(Eval(sem, row, Or(ps)), Eval(sem, row, MakeOr(ps)))
    ensures MakeOr(ps).Or? ==> |MakeOr(ps).disjuncts| > 1 && forall i :: 0 <= i < |MakeOr(ps).disjuncts| ==> Disjunct(MakeOr(ps).disjuncts[i])
  {
    hide FlattenOr, EvalAny;
    var flat := FlattenOr(ps, []);
    FlattenOrMeans(sem, row, ps, []);
    FlattenOrShape(ps, []);
    assert [] + ps == ps;
    if |flat| == 1 { OneConjunct(sem, row, flat[0]); assert flat == [flat[0]]; }
    NoConjuncts(sem, row);
  }

  lemma NoConjuncts(sem: Semantics, row: Row)
    ensures EvalAll(sem, row, []) == Known(true) && EvalAny(sem, row, []) == Known(false)
  {
  }

  /** An empty set test: IN () or NOT IN (). */
  predicate EmptySetTest(p: Predicate) { p.Leaf? && p.literals == [] && (p.op.In? || p.op.NotIn?) }

  /** Negation complements the answer on every row, except for an empty set test on a
      row whose column is null: there both the test and its negation are false. */
  lemma NegateMeans(sem: Semantics, row: Row, p: Predicate)
    ensures Eval(sem, row, Negate(p)) == Negated(Eval(sem, row, p)) <==> !(EmptySetTest(p) && row(p.column).Null?)
    ensures EmptySetTest(p) && row(p.column).Null? ==> Eval(sem, row, p) == Eval(sem, row, Negate(p)) == Known(false)
  {
    if p.Not? { assert Negated(Negated(Eval(sem, row, p.inner))) == Eval(sem, row, p.inner); }
  }

  /** No empty set test on a null column anywhere in the tree. */
  predicate Guarded(row: Row, p: Predicate)
    decreases p
  {
    match p
    case Leaf(column, _, _) => !(EmptySetTest(p) && row(column).Null?)
    case And(ps) => forall q :: q in ps ==> Guarded(row, q)
    case Or(ps) => forall q :: q in ps ==> Guarded(row, q)
    case Not(q) => Guarded(row, q)
    case _ => true
  }

  predicate AllGuarded(row: Row, ps: seq<Predicate>) { forall q :: q in ps ==> Guarded(row, q) }

  lemma {:induction false} FlattenGuarded(row: Row, ps: seq<Predicate>, out: seq<Predicate>)
    requires AllGuarded(row, ps) && AllGuarded(row, out)
    ensures AllGuarded(row, FlattenAnd(ps, out)) && AllGuarded(row, FlattenOr(ps, out))
    decreases ps
  {
    if ps != [] {
      var p, rest := ps[0], ps[1..];
      assert Guarded(row, p);
      FlattenGuarded(row, rest, out);
      FlattenGuarded(row, rest, out + [p]);
      match p
      case And(children) =>
        FlattenGuarded(row, children, out);
        FlattenGuarded(row, rest, FlattenAnd(children, out));
      case Or(children) =>
        FlattenGuarded(row, children, out);
        FlattenGuarded(row, rest, FlattenOr(children, out));
      case _ =>
    }
  }

  /** The constructors keep such trees free of them. */
  lemma ConstructorsGuarded(row: Row, a: Predicate, b: Predicate)
    requires Guarded(row, a)
    ensures Guarded(row, Negate(a))
    ensures Guarded(row, b) ==> Guarded(row, MakeAnd([a, b])) && Guarded(row, MakeOr([a, b]))
  {
    if Guarded(row, b) {
      hide FlattenAnd, FlattenOr;
      FlattenGuarded(row, [a, b], []);
    }
  }

  predicate ReadableAt(row: Row, p: Predicate)
    decreases p
  {
    match p
    case Leaf(column, _, _) => !row(column).Unreadable?
    case And(ps) => forall q :: q in ps ==> ReadableAt(row, q)
    case Or(ps) => forall q :: q in ps ==> ReadableAt(row, q)
    case Not(q) => ReadableAt(row, q)
    case _ => true
  }

  /** Evaluation fails only on a column that cannot be read. */
  lemma {:induction false} ReadableIsKnown(sem: Semantics, row: Row, p: Predicate)
    requires ReadableAt(row, p)
    ensures Eval(sem, row, p).Known?
    decreases p, 1
  {
    match p
    case And(ps) => ReadableAll(sem, row, ps);
    case Or(ps) => ReadableAll(sem, row, ps);
    case Not(q) => ReadableIsKnown(sem, row, q);
    case _ =>
  }

  lemma {:induction false} ReadableAll(sem: Semantics, row: Row, ps: seq<Predicate>)
    requires forall q :: q in ps ==> ReadableAt(row, q)
    ensures EvalAll(sem, row, ps).Known? && EvalAny(sem, row, ps).Known?
    decreases ps, 0
  {
    hide ReadableAt;
    if ps != [] {
      ReadableIsKnown(sem, row, ps[0]);
      ReadableAll(sem, row, ps[1..]);
    }
  }

  // ------------------------------------------------------ the textbook reading

  /** Whether a row satisfies a predicate, as one would read it: a null column satisfies
      only a null test, a set test asks about the whole list, And means all and Or some. */
  ghost predicate Satisfies(sem: Semantics, row: Row, p: Predicate)
    decreases p
  {
    match p
    case AlwaysTrue => true
    case AlwaysFalse => false
    case And(ps) => forall q :: q in ps ==> Satisfies(sem, row, q)
    case Or(ps) => exists q :: q in ps && Satisfies(sem, row, q)
    case Not(q) => !Satisfies(sem, row, q)
    case Leaf(column, op, literals) => SatisfiesLeaf(sem, row(column), op, literals)
  }

  ghost predicate SatisfiesLeaf(sem: Semantics, cell: Cell, op: Operator, literals: seq<int>) {
    match op
    case IsNull => cell == Null
    case IsNotNull => cell.Datum?
    case In => cell.Datum? && exists v :: v in literals && sem.equal(cell.value, v)
    case NotIn => cell.Datum? && forall v :: v in literals ==> !sem.equal(cell.value, v)
    case Other(code) => cell.Datum? && sem.other(code, cell.value, literals)
  }

  /** On a row whose columns can be read, evaluation is that reading. */
  lemma {:induction false} EvalIsSatisfies(sem: Semantics, row: Row, p: Predicate)
    requires ReadableAt(row, p)
    ensures Eval(sem, row, p) == Known(Satisfies(sem, row, p))
    decreases p, 1
  {
    match p
    case And(ps) => AllSatisfied(sem, row, ps);
    case Or(ps) => AllSatisfied(sem, row, ps);
    case Not(q) => EvalIsSatisfies(sem, row, q);
    case Leaf(column, op, literals) => LeafMeans(sem, row(column), op, literals);
    case _ =>
  }

  lemma {:induction false} AllSatisfied(sem: Semantics, row: Row, ps: seq<Predicate>)
    requires forall q :: q in ps ==> ReadableAt(row, q)
    ensures EvalAll(sem, row, ps) == Known(forall q :: q in ps ==> Satisfies(sem, row, q))
    ensures EvalAny(sem, row, ps) == Known(exists q :: q in ps && Satisfies(sem, row, q))
    decreases ps, 0
  {
    hide ReadableAt;
    if ps != [] {
      EvalIsSatisfies(sem, row, ps[0]);
      AllSatisfied(sem, row, ps[1..]);
      hide Eval, Satisfies;
      assert forall q :: q in ps <==> q == ps[0] || q in ps[1..];
    }
  }

  lemma LeafMeans(sem: Semantics, cell: Cell, op: Operator, literals: seq<int>)
    ensures EvalLeaf(sem, cell, op, literals) == if cell.Unreadable? then Error else Known(SatisfiesLeaf(sem, cell, op, literals))
  {
    if cell.Datum? {
      AnyIsSome(sem, cell.value, literals);
    }
  }

  lemma AnyIsSome(sem: Semantics, v: int, literals: seq<int>)
    ensures AnyEqual(sem, v, literals) <==> exists l :: l in literals && sem.equal(v, l)
  {
    if AnyEqual(sem, v, literals) {
      var i :| 0 <= i < |literals| && sem.equal(v, literals[i]);
      var l := literals[i];
      assert l in literals && sem.equal(v, l);
    }
    if l :| l in literals && sem.equal(v, l) {
      var i :| 0 <= i < |literals| && literals[i] == l;
      assert sem.equal(v, literals[i]);
    }
  }
}
