/** The cache of Python URI readers: a map from object address to a weak
reference to the reader's wrapper. Addresses are reused once an object dies, so the
question is whether an address ever answers for the wrong object.

An object is named by a number that is never reused; `address` says where it lives.
`strong` counts the owners of a wrapper. A wrapper holds its object until it is
dropped, and the reference it held may be released later, when the interpreter gets
to it (`pending`).

`create` is one step here. The interpreter lock keeps allocation, sharing and release of
objects out of it and the mutex keeps other lookups out, but dropping or cloning an owner
of a wrapper takes neither lock. `InterleavedCreate` shows that owners coming and going
between the lookup, the visits of the purge and the insertion do no harm.
*/
module UriReaderCache {

  datatype World = World(
    address: map<nat, nat>,       // object -> where it lives, for every object ever made
    python: map<nat, nat>,        // object -> references held by Python code
    wraps: map<nat, nat>,         // wrapper -> object, for every wrapper ever made
    strong: map<nat, nat>,        // wrapper -> strong count
    pending: set<nat>,            // dropped wrappers whose reference is not released yet
    readers: map<nat, nat>)       // address -> wrapper, weak

  const EMPTY := World(map[], map[], map[], map[], {}, map[])

  predicate Upgrades(w: World, x: nat) { x in w.strong && w.strong[x] > 0 }

  predicate Holds(w: World, x: nat, o: nat) {
    x in w.wraps && w.wraps[x] == o && (Upgrades(w, x) || x in w.pending)
  }

  predicate Alive(w: World, o: nat) {
    || (o in w.python && w.python[o] > 0)
    || exists x :: x in w.wraps && Holds(w, x, o)
  }

  // ------------------------------------------------------------------ steps

  datatype Step =
    | Allocate(o: nat, at: nat)
    | Share(o: nat)               // Python takes another reference to a live object
    | Forget(o: nat)              // Python drops one
    | Create(o: nat, wrapper: nat)  // the factory returned `o`; `wrapper` names a new wrapper
    | CloneArc(x: nat)
    | DropArc(x: nat)
    | Release(x: nat)             // a dropped wrapper's reference is given back

  /** What can happen: an address is taken only when no live object is there. */
  predicate Enabled(w: World, s: Step) {
    match s
    case Allocate(o, at) => o !in w.address && forall p :: p in w.address && Alive(w, p) ==> w.address[p] != at
    case Share(o) => o in w.address && Alive(w, o)
    case Forget(o) => o in w.python && w.python[o] > 0
    case Create(o, wrapper) => o in w.address && o in w.python && w.python[o] > 0 && wrapper !in w.wraps && wrapper !in w.strong
    case CloneArc(x) => Upgrades(w, x)
    case DropArc(x) => Upgrades(w, x)
    case Release(x) => x in w.pending
  }

  function Retain(w: World): (r: map<nat, nat>)
    ensures forall a :: a in r <==> a in w.readers && Upgrades(w, w.readers[a])
    ensures forall a :: a in r ==> r[a] == w.readers[a]
  {
    map a | a in w.readers && Upgrades(w, w.readers[a]) :: w.readers[a]
  }

  /** The wrapper the cache answers with, if it has a live one at this address. */
  predicate Hit(w: World, at: nat) { at in w.readers && Upgrades(w, w.readers[at]) }

  function CreateSpec(w: World, o: nat, wrapper: nat): (r: (World, nat))
    requires Enabled(w, Create(o, wrapper))
  {
    var at := w.address[o];
    if Hit(w, at) then
      var x := w.readers[at];
      (w.(strong := w.strong[x := w.strong[x] + 1]), x)
    else
      (w.(wraps := w.wraps[wrapper := o], strong := w.strong[wrapper := 1], readers := Retain(w)[at := wrapper]), wrapper)
  }

  function Next(w: World, s: Step): (r: World)
    requires Enabled(w, s)
  {
    match s
    case Allocate(o, at) => w.(address := w.address[o := at], python := w.python[o := 1])
    case Share(o) => w.(python := w.python[o := (if o in w.python then w.python[o] else 0) + 1])
    case Forget(o) => w.(python := w.python[o := w.python[o] - 1])
    case Create(o, wrapper) => CreateSpec(w, o, wrapper).0
    case CloneArc(x) => w.(strong := w.strong[x := w.strong[x] + 1])
    case DropArc(x) =>
      w.(strong := w.strong[x := w.strong[x] - 1], pending := if w.strong[x] == 1 then w.pending + {x} else w.pending)
    case Release(x) => w.(pending := w.pending - {x})
  }

  /** Every world some sequence of possible steps leads to from the empty one. */
  ghost predicate Reaches(w: World, steps: seq<Step>, w': World)
    decreases |steps|
  {
    if steps == [] then w == w'
    else Enabled(w, steps[0]) && Reaches(Next(w, steps[0]), steps[1..], w')
  }

  // -------------------------------------------------------------- invariant

  predicate Apart(w: World) {
    forall o, p :: o in w.address && p in w.address && o != p && Alive(w, o) && Alive(w, p) ==> w.address[o] != w.address[p]
  }

  /** A live wrapper is the one cached at its object's address. */
  predicate Cached(w: World) {
    forall x :: x in w.wraps && Upgrades(w, x) ==>
      w.wraps[x] in w.address && w.address[w.wraps[x]] in w.readers && w.readers[w.address[w.wraps[x]]] == x
  }

  /** Every entry sits at the address of its wrapper's object. */
  predicate Placed(w: World) {
    forall a :: a in w.readers ==> w.readers[a] in w.wraps && w.wraps[w.readers[a]] in w.address && w.address[w.wraps[w.readers[a]]] == a
  }

  predicate WellFormed(w: World) {
    && Placed(w)
    && (forall x :: x in w.strong ==> x in w.wraps)
    && (forall x :: x in w.wraps ==> x in w.strong && w.wraps[x] in w.address)
    && (forall x :: x in w.pending ==> x in w.wraps && !Upgrades(w, x))
    && (forall o :: o in w.python ==> o in w.address)
  }

  predicate Inv(w: World) { WellFormed(w) && Apart(w) && Cached(w) }

  /** Objects only come to life by being allocated or kept by someone who had them. */
  lemma ApartShrinks(w: World, w': World)
    requires Apart(w) && w'.address == w.address
    requires forall o :: o in w.address && Alive(w', o) ==> Alive(w, o)
    ensures Apart(w')
  {
  }

  lemma AllocateApart(w: World, o: nat, at: nat)
    requires Inv(w) && Enabled(w, Allocate(o, at))
    ensures Apart(Next(w, Allocate(o, at)))
  {
    hide Cached;
    var w' := Next(w, Allocate(o, at));
    forall p | p in w.address && Alive(w', p) ensures Alive(w, p) {
      if exists x :: x in w'.wraps && Holds(w', x, p) {
        var x :| x in w'.wraps && Holds(w', x, p);
        assert Holds(w, x, p);
      }
    }
  }

  lemma AllocateRest(w: World, o: nat, at: nat)
    requires Inv(w) && Enabled(w, Allocate(o, at))
    ensures WellFormed(Next(w, Allocate(o, at))) && Cached(Next(w, Allocate(o, at)))
  {
    hide Apart, Alive;
  }

  /** Steps that allocate nothing bring no object back to life. */
  lemma NobodyRevives(w: World, s: Step)
    requires WellFormed(w) && Enabled(w, s) && !s.Allocate?
    ensures forall p :: p in w.address && Alive(Next(w, s), p) ==> Alive(w, p)
  {
    var w' := Next(w, s);
    forall p | p in w.address && Alive(w', p) ensures Alive(w, p) {
      if exists x :: x in w'.wraps && Holds(w', x, p) {
        var x :| x in w'.wraps && Holds(w', x, p);
        HeldBefore(w, s, x, p);
      }
    }
  }

  /** Whoever holds an object after a step held it before, or is the wrapper just made
      for an object Python holds. */
  lemma HeldBefore(w: World, s: Step, x: nat, p: nat)
    requires WellFormed(w) && Enabled(w, s) && !s.Allocate? && Holds(Next(w, s), x, p)
    ensures Holds(w, x, p) || (s.Create? && s.wrapper == x && s.o == p)
  {
    hide Alive;
  }

  lemma SharingRest(w: World, s: Step)
    requires Inv(w) && Enabled(w, s) && (s.Share? || s.Forget? || s.CloneArc? || s.DropArc? || s.Release?)
    ensures WellFormed(Next(w, s)) && Cached(Next(w, s))
  {
    hide Apart, Alive;
    if s.Share? && !(s.o in w.python) {
      assert s.o in w.address;
    }
  }

  /** The heart of it: a miss means no live wrapper lives at this address, because a
      live wrapper would keep its object there, and two live objects never share one. */
  lemma MissMeansNoWrapper(w: World, o: nat, x: nat)
    requires Inv(w) && o in w.address && Alive(w, o) && !Hit(w, w.address[o])
    requires x in w.wraps && Upgrades(w, x)
    ensures w.address[w.wraps[x]] != w.address[o]
  {
    assert Holds(w, x, w.wraps[x]);
  }

  lemma CreateWellFormed(w: World, o: nat, wrapper: nat)
    requires Inv(w) && Enabled(w, Create(o, wrapper))
    ensures WellFormed(Next(w, Create(o, wrapper)))
  {
    hide Apart, Alive, Cached;
  }

  lemma CreateCached(w: World, o: nat, wrapper: nat)
    requires Inv(w) && Enabled(w, Create(o, wrapper))
    ensures Cached(Next(w, Create(o, wrapper)))
  {
    var w' := Next(w, Create(o, wrapper));
    if !Hit(w, w.address[o]) {
      assert Alive(w, o);
      hide Apart, Alive;
      forall x | x in w'.wraps && Upgrades(w', x)
        ensures w'.wraps[x] in w'.address && w'.address[w'.wraps[x]] in w'.readers && w'.readers[w'.address[w'.wraps[x]]] == x
      {
        if x != wrapper {
          assert Upgrades(w, x) && w'.wraps[x] == w.wraps[x];
          MissMeansNoWrapper(w, o, x);
        }
      }
    }
  }

  lemma NextKeeps(w: World, s: Step)
    requires Inv(w) && Enabled(w, s)
    ensures Inv(Next(w, s))
  {
    hide WellFormed, Apart, Cached, Next, Enabled, Alive;
    match s {
      case Allocate(o, at) =>
        AllocateApart(w, o, at);
        AllocateRest(w, o, at);
      case Create(o, wrapper) =>
        CreateWellFormed(w, o, wrapper);
        CreateCached(w, o, wrapper);
        StaysApart(w, s);
      case _ =>
        SharingRest(w, s);
        StaysApart(w, s);
    }
  }

  lemma StaysApart(w: World, s: Step)
    requires Inv(w) && Enabled(w, s) && !s.Allocate?
    ensures Apart(Next(w, s))
  {
    hide WellFormed, Cached, Alive, Apart;
    NobodyRevives(w, s);
    SameAddresses(w, s);
    hide Next, Enabled;
    ApartShrinks(w, Next(w, s));
  }

  lemma SameAddresses(w: World, s: Step)
    requires Enabled(w, s) && !s.Allocate?
    ensures Next(w, s).address == w.address
  {
    hide Alive;
  }

  lemma {:induction false} ReachableInv(w: World, steps: seq<Step>, w': World)
    requires Inv(w) && Reaches(w, steps, w')
    ensures Inv(w')
    decreases |steps|
  {
    hide Inv, Next, Enabled;
    if steps != [] {
      NextKeeps(w, steps[0]);
      ReachableInv(Next(w, steps[0]), steps[1..], w');
    }
  }

  // --------------------------------------------------------------- theorems

  /** Whatever happened before, asking for a reader yields a live wrapper of exactly the
      object the factory returned. If any wrapper of it was live, that one comes back;
      if a new one was made, the cache then holds the live wrappers and nothing else. */
  lemma CreateIsIdentity(steps: seq<Step>, w: World, o: nat, wrapper: nat)
    requires Reaches(EMPTY, steps, w) && Enabled(w, Create(o, wrapper))
    ensures var (w', x) := CreateSpec(w, o, wrapper);
            && x in w'.wraps && w'.wraps[x] == o && Upgrades(w', x)
            && (forall y :: y in w.wraps && Upgrades(w, y) && w.wraps[y] == o ==> x == y)
            && (x == wrapper ==> forall a :: a in w'.readers ==> Upgrades(w', w'.readers[a]))
            && (x == wrapper ==> forall y :: y in w'.wraps && Upgrades(w', y) ==> y in w'.readers.Values)
  {
    ReachableInv(EMPTY, steps, w);
    hide Reaches;
    var (w', x) := CreateSpec(w, o, wrapper);
    NextKeeps(w, Create(o, wrapper));
    if Hit(w, w.address[o]) {
      assert Holds(w, x, w.wraps[x]);
    }
  }

  /** How many owners a wrapper has. */
  function Owners(w: World, x: nat): (n: nat) { if x in w.strong then w.strong[x] else 0 }

  /** Create gives the caller one more owner of what it returns and touches no other count;
      with a cached reader nothing else changes. */
  lemma CreateAddsOneOwner(w: World, o: nat, wrapper: nat, y: nat)
    requires Enabled(w, Create(o, wrapper))
    ensures var (w', x) := CreateSpec(w, o, wrapper);
            && Owners(w', y) == Owners(w, y) + (if y == x then 1 else 0)
            && (x == wrapper <==> !Hit(w, w.address[o]))
            && (x != wrapper ==> w' == w.(strong := w'.strong))
  {
    hide Alive;
  }

  /** What a step does to them: the reader a create returns gains one, as does a cloned one,
      and a dropped one loses one. */
  function Gains(w: World, s: Step, x: nat): (d: int)
    requires Enabled(w, s)
  {
    match s
    case Create(o, wrapper) => if CreateSpec(w, o, wrapper).1 == x then 1 else 0
    case CloneArc(y) => if y == x then 1 else 0
    case DropArc(y) => if y == x then -1 else 0
    case _ => 0
  }

  ghost function TotalGain(w: World, steps: seq<Step>, w': World, x: nat): (d: int)
    requires Reaches(w, steps, w')
    decreases |steps|
  {
    if steps == [] then 0 else Gains(w, steps[0], x) + TotalGain(Next(w, steps[0]), steps[1..], w', x)
  }

  /** After any run a wrapper has as many owners as times it was returned or cloned, less
      the times it was dropped. */
  lemma {:induction false} OwnersBalance(w: World, steps: seq<Step>, w': World, x: nat)
    requires Reaches(w, steps, w')
    ensures Owners(w', x) == Owners(w, x) + TotalGain(w, steps, w', x)
    decreases |steps|
  {
    hide Enabled, Next, Owners, Gains;
    if steps != [] {
      OwnersStep(w, steps[0], x);
      OwnersBalance(Next(w, steps[0]), steps[1..], w', x);
    }
  }

  lemma OwnersStep(w: World, s: Step, x: nat)
    requires Enabled(w, s)
    ensures Owners(Next(w, s), x) == Owners(w, x) + Gains(w, s, x)
  {
    hide Alive;
  }

  /** Two live wrappers never wrap the same object. */
  lemma OneWrapperPerObject(steps: seq<Step>, w: World, x: nat, y: nat)
    requires Reaches(EMPTY, steps, w)
    requires x in w.wraps && y in w.wraps && Upgrades(w, x) && Upgrades(w, y)
    ensures w.wraps[x] == w.wraps[y] <==> x == y
  {
    ReachableInv(EMPTY, steps, w);
  }

  // ------------------------------------------- owners changing inside create

  /** Steps that take neither the interpreter lock nor the cache's mutex. */
  predicate OwnerStep(s: Step) { s.CloneArc? || s.DropArc? }

  /** Runs of such steps. */
  ghost predicate OwnersReach(w: World, steps: seq<Step>, w': World)
    decreases |steps|
  {
    if steps == [] then w == w'
    else OwnerStep(steps[0]) && Upgrades(w, steps[0].x) && OwnersReach(Next(w, steps[0]), steps[1..], w')
  }

  /** They change only owner counts, and bring no wrapper back. */
  lemma {:induction false} OwnersOnly(w: World, steps: seq<Step>, w': World)
    requires Inv(w)
    ensures OwnersReach(w, steps, w') ==> Inv(w') && FewerOwners(w, w')
    decreases |steps|
  {
    if steps != [] && OwnersReach(w, steps, w') {
      assert Enabled(w, steps[0]);
      hide Inv, Next, Enabled, Upgrades, OwnerStep;
      NextKeeps(w, steps[0]);
      OwnerEffect(w, steps[0]);
      OwnersOnly(Next(w, steps[0]), steps[1..], w');
    }
  }

  lemma OwnerEffect(w: World, s: Step)
    requires Enabled(w, s) && OwnerStep(s)
    ensures FewerOwners(w, Next(w, s))
  {
  }

  /** What the purge can leave when owners change while it visits the entries: it keeps an
      entry if it finds it live, so everything live throughout, and nothing that was dead. */
  ghost predicate Purged(before: World, after: World, r: map<nat, nat>) {
    && (forall a :: a in Retain(after) ==> a in r)
    && (forall a :: a in r ==> a in Retain(before) && r[a] == before.readers[a])
  }

  function InsertInto(w: World, r: map<nat, nat>, o: nat, at: nat, wrapper: nat): (w': World) {
    w.(wraps := w.wraps[wrapper := o], strong := w.strong[wrapper := 1], readers := r[at := wrapper])
  }

  /** A lookup that failed in `w`, a purge that ended in `w'`, then the insertion: the
      invariant holds as if all had been one step, the new wrapper is live and cached, no
      other live wrapper has the object, and an entry that is dead by then was live when
      the call began. */
  lemma InterleavedCreate(w: World, steps: seq<Step>, w': World, r: map<nat, nat>, o: nat, wrapper: nat)
    requires Inv(w) && Enabled(w, Create(o, wrapper)) && !Hit(w, w.address[o])
    ensures var v := InsertInto(w', r, o, w.address[o], wrapper); OwnersReach(w, steps, w') && Purged(w, w', r) ==>
      && Inv(v) && Upgrades(v, wrapper) && v.wraps[wrapper] == o && v.readers[w.address[o]] == wrapper
      && (forall x :: x in w'.wraps && Upgrades(w', x) ==> w'.wraps[x] != o)
      && (forall a :: a in v.readers && !Upgrades(v, v.readers[a]) ==> Upgrades(w, v.readers[a]))
  {
    hide OwnersReach, Inv, Enabled, Hit, Purged, Retain;
    OwnersOnly(w, steps, w');
    if OwnersReach(w, steps, w') && Purged(w, w', r) {
      StillMisses(w, w', o, wrapper);
      LaterCreate(w, w', r, o, wrapper);
      DeadEntries(w, w', r, o, wrapper);
      forall x | x in w'.wraps && Upgrades(w', x) ensures w'.wraps[x] != o {
        MissMeansNoWrapper(w', o, x);
      }
    }
  }

  /** The same world but for owners, none of them new. */
  ghost predicate FewerOwners(w: World, w': World) {
    && w' == w.(strong := w'.strong, pending := w'.pending) && w'.strong.Keys == w.strong.Keys
    && forall x :: Upgrades(w', x) ==> Upgrades(w, x)
  }

  lemma StillMisses(w: World, w': World, o: nat, wrapper: nat)
    requires FewerOwners(w, w') && Enabled(w, Create(o, wrapper)) && !Hit(w, w.address[o])
    ensures Enabled(w', Create(o, wrapper)) && o in w'.address && w'.address[o] == w.address[o] && !Hit(w', w'.address[o]) && Alive(w', o)
  {
  }

  lemma DeadEntries(w: World, w': World, r: map<nat, nat>, o: nat, wrapper: nat)
    requires FewerOwners(w, w') && Enabled(w, Create(o, wrapper)) && Purged(w, w', r)
    ensures var v := InsertInto(w', r, o, w.address[o], wrapper);
      && Upgrades(v, wrapper)
      && forall a :: a in v.readers && !Upgrades(v, v.readers[a]) ==> Upgrades(w, v.readers[a])
  {
  }

  lemma LaterCreate(w: World, w': World, r: map<nat, nat>, o: nat, wrapper: nat)
    requires Inv(w) && Inv(w') && FewerOwners(w, w') && Purged(w, w', r)
    requires Enabled(w', Create(o, wrapper)) && o in w.address && w'.address[o] == w.address[o] && !Hit(w', w'.address[o])
    ensures Inv(InsertInto(w', r, o, w.address[o], wrapper))
  {
    hide Inv, Enabled, Next, Purged, FewerOwners, Placed;
    NextKeeps(w', Create(o, wrapper));
    InvPlaced(w);
    EntriesFit(w, w', r, o, wrapper);
    PurgeKeepsMore(w, w', r, o, wrapper);
    SpareEntries(Next(w', Create(o, wrapper)), InsertInto(w', r, o, w.address[o], wrapper));
  }

  lemma InvPlaced(w: World)
    requires Inv(w)
    ensures Placed(w)
  {
  }

  lemma PurgeKeepsMore(w: World, w': World, r: map<nat, nat>, o: nat, wrapper: nat)
    requires FewerOwners(w, w') && Purged(w, w', r)
    requires Enabled(w', Create(o, wrapper)) && o in w.address && w'.address[o] == w.address[o] && !Hit(w', w'.address[o])
    ensures var u, v := Next(w', Create(o, wrapper)), InsertInto(w', r, o, w.address[o], wrapper);
      v == u.(readers := v.readers) && forall a :: a in u.readers ==> a in v.readers && v.readers[a] == u.readers[a]
  {
  }

  lemma EntriesFit(w: World, w': World, r: map<nat, nat>, o: nat, wrapper: nat)
    requires Placed(w) && FewerOwners(w, w') && Purged(w, w', r) && Enabled(w', Create(o, wrapper)) && o in w.address
    ensures Placed(InsertInto(w', r, o, w.address[o], wrapper))
  {
    hide Upgrades;
  }

  /** Further entries for wrappers that are dead change nothing. */
  lemma SpareEntries(u: World, v: World)
    requires Inv(u) && v == u.(readers := v.readers)
    requires forall a :: a in u.readers ==> a in v.readers && v.readers[a] == u.readers[a]
    requires Placed(v)
    ensures Inv(v)
  {
    assert forall x :: Upgrades(u, x) <==> Upgrades(v, x);
    assert forall x, o :: Holds(v, x, o) ==> Holds(u, x, o);
    forall o | o in v.address && Alive(v, o) ensures Alive(u, o) {
    }
    ApartShrinks(u, v);
  }

  // ------------------------------------------------------ the factory object

  class ReaderFactory {
    var address: map<nat, nat>
    var python: map<nat, nat>
    var wraps: map<nat, nat>
    var strong: map<nat, nat>
    var pending: set<nat>
    var readers: map<nat, nat>

    function Abs(): (w: World)
      reads this
    {
      World(address, python, wraps, strong, pending, readers)
    }

    constructor ()
      ensures Abs() == EMPTY
    {
      address, python, wraps, strong, pending, readers := map[], map[], map[], map[], {}, map[];
    }

    /** `create` once the Python factory has returned `reader`; a new wrapper gets the
        name `wrapper`. */
    method Create(reader: nat, wrapper: nat) returns (x: nat)
      requires Enabled(Abs(), Step.Create(reader, wrapper))
      modifies this`strong, this`wraps, this`readers
      ensures (Abs(), x) == CreateSpec(old(Abs()), reader, wrapper)
    {
      var identity := address[reader];
      if identity in readers {
        var previous := readers[identity];
        if previous in strong && strong[previous] > 0 {
          strong := strong[previous := strong[previous] + 1];
          return previous;
        }
      }
      assert !Hit(Abs(), identity);
      readers := map a | a in readers && Upgrades(Abs(), readers[a]) :: readers[a];
      wraps, strong := wraps[wrapper := reader], strong[wrapper := 1];
      readers := readers[identity := wrapper];
      x := wrapper;
    }
  }
}
