/** The number selection of the TPC-DS command line: `1,3-5, 9`.
*/
module Selection {
  import opened Bytes
  import opened Decimal
  import opened Options

  datatype Error = InvalidValue(text: string) | Descending(part: string) | Outside(value: nat)

  datatype Result<+T> = Ok(value: T) | Err(error: Error)

  // ---------------------------------------------------------------- text

  /** The code points with the Unicode property White_Space. */
  predicate IsWhite(c: char) {
    var n := c as int;
    || 0x9 <= n <= 0xD || n == 0x20 || n == 0x85 || n == 0xA0 || n == 0x1680 || 0x2000 <= n <= 0x200A
    || n == 0x2028 || n == 0x2029 || n == 0x202F || n == 0x205F || n == 0x3000
  }

  predicate AllWhite(s: string) { forall i :: 0 <= i < |s| ==> IsWhite(s[i]) }

  function TrimStart(s: string): (r: string)
    ensures |r| <= |s|
  {
    if s != [] && IsWhite(s[0]) then TrimStart(s[1..]) else s
  }

  function TrimEnd(s: string): (r: string)
    ensures |r| <= |s|
  {
    if s != [] && IsWhite(s[|s| - 1]) then TrimEnd(s[..|s| - 1]) else s
  }

  function Trim(s: string): (r: string) { TrimEnd(TrimStart(s)) }

  function IndexOf(s: string, c: char): (i: nat)
    ensures i <= |s| && c !in s[..i] && (i < |s| ==> s[i] == c)
  {
    if s == [] || s[0] == c then 0 else
      var i := IndexOf(s[1..], c);
      assert s[..1 + i] == [s[0]] + s[1..][..i];
      1 + i
  }

  /** The pieces between commas; always at least one. */
  function Split(s: string): (parts: seq<string>)
    decreases |s|
  {
    var i := IndexOf(s, ',');
    if i == |s| then [s] else [s[..i]] + Split(s[i + 1..])
  }

  function Parts(pieces: seq<string>): (parts: seq<string>) {
    if pieces == [] then [] else
      (if Trim(pieces[0]) == [] then [] else [Trim(pieces[0])]) + Parts(pieces[1..])
  }

  /** A 32-bit number: an optional plus sign and at least one digit. */
  function ParseU32(s: string): (r: Option<nat>)
    ensures r.Some? ==> r.value < TWO_32
  {
    var digits := if s != [] && s[0] == '+' then s[1..] else s;
    if digits == [] || !AllDigits(digits) || Value(digits) >= TWO_32 then None else Some(Value(digits))
  }

  /** The inclusive range a part names. */
  function ParsePart(part: string): (r: Result<(nat, nat)>)
    ensures r.Ok? ==> r.value.0 <= r.value.1 < TWO_32
  {
    var i := IndexOf(part, '-');
    if i < |part| then
      var start, end := part[..i], part[i + 1..];
      match ParseU32(Trim(start))
      case None => Err(InvalidValue(start))
      case Some(lo) =>
        match ParseU32(Trim(end))
        case None => Err(InvalidValue(end))
        case Some(hi) => if lo > hi then Err(Descending(part)) else Ok((lo, hi))
    else
      match ParseU32(part)
      case None => Err(InvalidValue(part))
      case Some(n) => Ok((n, n))
  }

  // ------------------------------------------------------------- the meaning

  function Interval(lo: nat, hi: int): (s: set<nat>)
    ensures forall x :: x in s <==> lo <= x <= hi
    decreases hi - lo + 1
  {
    if lo > hi then {} else Interval(lo, hi - 1) + {hi as nat}
  }

  function PartSet(part: string): (s: set<nat>) {
    match ParsePart(part)
    case Ok((lo, hi)) => Interval(lo, hi)
    case Err(_) => {}
  }

  predicate AllParse(parts: seq<string>) { forall i :: 0 <= i < |parts| ==> ParsePart(parts[i]).Ok? }

  /** The union of what the parts list. */
  function Union(parts: seq<string>): (s: set<nat>) {
    if parts == [] then {} else Union(parts[..|parts| - 1]) + PartSet(parts[|parts| - 1])
  }

  lemma {:induction false} InUnion(parts: seq<string>, x: nat)
    ensures x in Union(parts) <==> exists i :: 0 <= i < |parts| && x in PartSet(parts[i])
  {
    hide PartSet;
    if parts != [] {
      var init := parts[..|parts| - 1];
      InUnion(init, x);
      if x in Union(init) {
        var i :| 0 <= i < |init| && x in PartSet(init[i]);
        assert x in PartSet(parts[i]);
      }
      if i :| 0 <= i < |parts| - 1 && x in PartSet(parts[i]) {
        assert x in PartSet(init[i]);
      }
    }
  }

  lemma {:induction false} UnionIsBounded(parts: seq<string>, x: nat)
    ensures x in Union(parts) ==> x < TWO_32
  {
    hide ParsePart;
    if parts != [] {
      UnionIsBounded(parts[..|parts| - 1], x);
    }
  }

  /** Nothing listed means everything. */
  function Chosen(parts: seq<string>, min: U32, max: U32): (s: set<nat>) {
    if Union(parts) == {} then Interval(min, max) else Union(parts)
  }

  predicate Within(s: set<nat>, min: nat, max: nat) { forall x :: x in s ==> min <= x <= max }

  predicate Increasing(xs: seq<nat>) { forall i, j :: 0 <= i < j < |xs| ==> xs[i] < xs[j] }

  /** The members below `hi`, in order: how an ordered set is walked. */
  function Ascending(s: set<nat>, hi: nat): (xs: seq<nat>)
    ensures forall i :: 0 <= i < |xs| ==> xs[i] in s && xs[i] < hi
    ensures forall x :: x in s && x < hi ==> x in xs
    ensures Increasing(xs)
  {
    if hi == 0 then [] else Ascending(s, hi - 1) + (if hi - 1 in s then [hi - 1] else [])
  }

  /** A strictly increasing list is determined by its members. */
  lemma {:induction false} IncreasingIsUnique(xs: seq<nat>, ys: seq<nat>)
    requires Increasing(xs) && Increasing(ys) && forall x :: x in xs <==> x in ys
    ensures xs == ys
    decreases |xs|
  {
    HasMember(xs);
    HasMember(ys);
    if xs != [] {
      LastIsGreatest(xs, ys);
      LastIsGreatest(ys, xs);
      var xs', ys' := xs[..|xs| - 1], ys[..|ys| - 1];
      forall x ensures x in xs' <==> x in ys' {
        InitMembers(xs, x);
        InitMembers(ys, x);
      }
      IncreasingIsUnique(xs', ys');
      assert xs == xs' + [xs[|xs| - 1]] && ys == ys' + [ys[|ys| - 1]];
    }
  }

  lemma InitMembers(xs: seq<nat>, x: nat)
    requires Increasing(xs) && xs != []
    ensures x in xs[..|xs| - 1] <==> x in xs && x != xs[|xs| - 1]
  {
    assert xs == xs[..|xs| - 1] + [xs[|xs| - 1]];
  }

  lemma HasMember(xs: seq<nat>)
    ensures xs != [] ==> exists x :: x in xs
  {
    if xs != [] {
      assert xs[0] in xs;
    }
  }

  lemma LastIsGreatest(xs: seq<nat>, ys: seq<nat>)
    requires Increasing(ys) && xs != [] && ys != [] && forall x :: x in xs ==> x in ys
    ensures xs[|xs| - 1] <= ys[|ys| - 1]
  {
    assert xs[|xs| - 1] in ys;
  }

  // ------------------------------------------------------------- the parser

  predicate FirstError(parts: seq<string>, e: Error) {
    exists i :: 0 <= i < |parts| && AllParse(parts[..i]) && ParsePart(parts[i]) == Err(e)
  }

  /** The smallest chosen number out of bounds. */
  predicate SmallestOutside(s: set<nat>, min: nat, max: nat, v: nat) {
    v in s && !(min <= v <= max) && forall x :: x in s && !(min <= x <= max) ==> v <= x
  }

  /** The result is decided by the parts: the first part that does not parse, else the
      smallest chosen number out of bounds, else all chosen numbers in order. */
  method ParseNumberSelection(selection: Option<string>, min: U32, max: U32) returns (r: Result<seq<nat>>)
    ensures var parts := Parts(Split(if selection.Some? then selection.value else ""));
            var chosen := Chosen(parts, min, max);
            && (!AllParse(parts) ==> r.Err? && FirstError(parts, r.error))
            && (AllParse(parts) && Within(chosen, min, max) ==> r == Ok(Ascending(chosen, TWO_32)))
            && (AllParse(parts) && !Within(chosen, min, max) ==>
                  r.Err? && r.error.Outside? && SmallestOutside(chosen, min, max, r.error.value))
  {
    hide ParsePart, Parts, Split, Trim, Interval, Ascending;
    var parts := Parts(Split(if selection.Some? then selection.value else ""));
    var gathered := Gather(parts);
    if gathered.Err? { return Err(gathered.error); }
    var values := gathered.value;
    if values == {} {
      values := values + Interval(min, max);
      assert values == Interval(min, max);
    } else {
      forall x | x in values ensures x < TWO_32 {
        UnionIsBounded(parts, x);
      }
    }
    r := InBounds(values, min, max);
  }

  /** The loop over the parts. */
  method Gather(parts: seq<string>) returns (r: Result<set<nat>>)
    ensures AllParse(parts) ==> r == Ok(Union(parts))
    ensures !AllParse(parts) ==> r.Err? && FirstError(parts, r.error)
  {
    hide ParsePart;
    var values: set<nat> := {};
    for i := 0 to |parts|
      invariant AllParse(parts[..i]) && values == Union(parts[..i])
    {
      var parsed := ParsePart(parts[i]);
      if parsed.Err? { return Err(parsed.error); }
      assert parts[..i + 1][..i] == parts[..i];
      values := values + Interval(parsed.value.0, parsed.value.1);
    }
    assert parts[..|parts|] == parts;
    r := Ok(values);
  }

  /** The walk over the ordered set. */
  method InBounds(values: set<nat>, min: U32, max: U32) returns (r: Result<seq<nat>>)
    requires forall x :: x in values ==> x < TWO_32
    ensures Within(values, min, max) ==> r == Ok(Ascending(values, TWO_32))
    ensures !Within(values, min, max) ==> r.Err? && r.error.Outside? && SmallestOutside(values, min, max, r.error.value)
  {
    hide Ascending;
    var ordered := Ascending(values, TWO_32);
    for i := 0 to |ordered|
      invariant forall k :: 0 <= k < i ==> min <= ordered[k] <= max
    {
      if ordered[i] < min || ordered[i] > max {
        forall x | x in values && !(min <= x <= max) ensures ordered[i] <= x {
          var k :| 0 <= k < |ordered| && ordered[k] == x;
        }
        return Err(Outside(ordered[i]));
      }
    }
    r := Ok(ordered);
  }

  /** Every accepted text: strictly increasing, in bounds, exactly the chosen numbers. */
  lemma AcceptedSelection(parts: seq<string>, min: U32, max: U32)
    requires AllParse(parts) && Within(Chosen(parts, min, max), min, max)
    ensures var xs := Ascending(Chosen(parts, min, max), TWO_32);
            && Increasing(xs) && (forall i :: 0 <= i < |xs| ==> min <= xs[i] <= max)
            && forall x :: x in xs <==> if Union(parts) == {} then min <= x <= max else x in Union(parts)
  {
    hide Ascending, Union, ParsePart, Interval;
    forall x | x in Union(parts) ensures x < TWO_32 {
      UnionIsBounded(parts, x);
    }
  }

  /** Order and repetition of the parts do not matter. */
  lemma OrderDoesNotMatter(p: seq<string>, q: seq<string>)
    requires forall s :: s in p <==> s in q
    ensures AllParse(p) <==> AllParse(q)
    ensures Union(p) == Union(q)
  {
    hide ParsePart, PartSet, Union;
    Included(p, q);
    Included(q, p);
  }

  lemma Included(p: seq<string>, q: seq<string>)
    requires forall s :: s in p ==> s in q
    ensures AllParse(q) ==> AllParse(p)
    ensures Union(p) <= Union(q)
  {
    hide ParsePart, PartSet, Union;
    forall i | 0 <= i < |p| ensures exists j :: 0 <= j < |q| && q[j] == p[i] {
      assert p[i] in q;
    }
    forall x | x in Union(p) ensures x in Union(q) {
      InUnion(p, x);
      InUnion(q, x);
      var i :| 0 <= i < |p| && x in PartSet(p[i]);
      var j :| 0 <= j < |q| && q[j] == p[i];
      assert x in PartSet(q[j]);
    }
  }

  // ------------------------------------------------------------ every spelling

  /** One piece between commas: nothing, a number, or a range, with white space around
      each. */
  datatype Token =
    | Blank(pad: string)
    | One(before: string, numeral: string, after: string)
    | Span(left: string, low: string, mid: string, mid': string, high: string, right: string)

  predicate IsNumeral(s: string) { ParseU32(s).Some? }

  function NumeralValue(s: string): (n: nat)
    requires IsNumeral(s)
  {
    ParseU32(s).value
  }

  function Sign(plus: bool): (s: string) { if plus then "+" else "" }

  /** The numerals are the printed numbers below 2^32, after any zeros and at most one plus
      sign, and each stands for that number. */
  lemma NumeralIff(s: string, n: nat)
    ensures IsNumeral(s) && NumeralValue(s) == n <==>
            n < TWO_32 && exists plus: bool, k: nat :: s == Sign(plus) + (Zeros(k) + Print(n))
  {
    hide Print, Value;
    if IsNumeral(s) && NumeralValue(s) == n {
      var plus := s[0] == '+';
      var digits := if plus then s[1..] else s;
      DigitsArePrinted(digits);
      var k := |digits| - |Print(n)|;
      assert s == Sign(plus) + (Zeros(k) + Print(n));
    }
    if n < TWO_32 {
      forall plus: bool, k: nat | s == Sign(plus) + (Zeros(k) + Print(n)) ensures IsNumeral(s) && NumeralValue(s) == n {
        ZerosAddNothing(k, Print(n));
        PrintRoundTrip(n);
        var digits := Zeros(k) + Print(n);
        assert IsDigit(digits[0]);
        if plus { assert s[1..] == digits; } else { assert s == digits; }
      }
    }
  }

  predicate WellSpelled(t: Token) {
    match t
    case Blank(pad) => AllWhite(pad)
    case One(b, n, a) => AllWhite(b) && IsNumeral(n) && AllWhite(a)
    case Span(b, lo, m, m', hi, a) =>
      && AllWhite(b) && AllWhite(m) && AllWhite(m') && AllWhite(a)
      && IsNumeral(lo) && IsNumeral(hi) && NumeralValue(lo) <= NumeralValue(hi)
  }

  function Core(t: Token): (s: string) {
    match t
    case Blank(_) => ""
    case One(_, n, _) => n
    case Span(_, lo, m, m', hi, _) => (lo + m) + "-" + (m' + hi)
  }

  function Spell(t: Token): (s: string) {
    match t
    case Blank(pad) => pad
    case One(b, _, a) => b + Core(t) + a
    case Span(b, _, _, _, _, a) => b + Core(t) + a
  }

  function Meaning(t: Token): (s: set<nat>)
    requires WellSpelled(t)
  {
    match t
    case Blank(_) => {}
    case One(_, n, _) => {NumeralValue(n)}
    case Span(_, lo, _, _, hi, _) => Interval(NumeralValue(lo), NumeralValue(hi))
  }

  lemma {:induction false} TrimStartPadded(pad: string, rest: string)
    requires AllWhite(pad) && (rest != [] ==> !IsWhite(rest[0]))
    ensures TrimStart(pad + rest) == rest
  {
    if pad == [] {
      assert pad + rest == rest;
    } else {
      TrimStartPadded(pad[1..], rest);
      assert (pad + rest)[1..] == pad[1..] + rest;
    }
  }

  lemma {:induction false} TrimEndPadded(rest: string, pad: string)
    requires AllWhite(pad) && (rest != [] ==> !IsWhite(rest[|rest| - 1]))
    ensures TrimEnd(rest + pad) == rest
  {
    if pad == [] {
      assert rest + pad == rest;
    } else {
      TrimEndPadded(rest, pad[..|pad| - 1]);
      assert (rest + pad)[..|rest + pad| - 1] == rest + pad[..|pad| - 1];
    }
  }

  lemma TrimPadded(before: string, core: string, after: string)
    requires AllWhite(before) && AllWhite(after)
    requires core != [] && !IsWhite(core[0]) && !IsWhite(core[|core| - 1])
    ensures Trim(before + core + after) == core
  {
    hide IsWhite, AllWhite, TrimStart, TrimEnd;
    assert before + core + after == before + (core + after);
    TrimStartPadded(before, core + after);
    TrimEndPadded(core, after);
  }

  lemma TrimBlank(pad: string)
    requires AllWhite(pad)
    ensures Trim(pad) == []
  {
    TrimStartPadded(pad, "");
    assert pad + "" == pad;
  }

  predicate NumeralChars(s: string) { s != [] && forall i :: 0 <= i < |s| ==> s[i] == '+' || IsDigit(s[i]) }

  lemma NumeralIsPlain(s: string)
    requires IsNumeral(s)
    ensures NumeralChars(s)
  {
    if s[0] == '+' {
      assert forall i :: 1 <= i < |s| ==> s[i] == s[1..][i - 1];
    }
  }

  lemma {:induction false} IndexAt(a: string, c: char, b: string)
    requires c !in a
    ensures IndexOf(a + [c] + b, c) == |a| && IndexOf(a, c) == |a|
  {
    if a != [] {
      IndexAt(a[1..], c, b);
      assert (a + [c] + b)[1..] == a[1..] + [c] + b;
    }
  }

  lemma SpanParses(part: string, i: nat, lo: string, hi: string)
    requires i < |part| && IsNumeral(lo) && IsNumeral(hi)
    ensures IndexOf(part, '-') == i && Trim(part[..i]) == lo && Trim(part[i + 1..]) == hi && NumeralValue(lo) <= NumeralValue(hi) ==>
              ParsePart(part) == Ok((NumeralValue(lo), NumeralValue(hi)))
  {
    hide Trim, IndexOf, ParseU32;
  }

  /** A range that runs backwards is refused as such, with its own text. */
  lemma SpanDescends(lo: string, m: string, m': string, hi: string)
    requires AllWhite(m) && AllWhite(m') && IsNumeral(lo) && IsNumeral(hi) && NumeralValue(lo) > NumeralValue(hi)
    ensures var part := (lo + m) + "-" + (m' + hi); ParsePart(part) == Err(Descending(part))
  {
    hide AllWhite, Trim, ParseU32, IndexOf;
    TrimNumeral(m, lo);
    TrimNumeral(m', hi);
    var start := lo + m;
    var part := start + "-" + (m' + hi);
    IndexAt(start, '-', m' + hi);
    assert part[..|start|] == start && part[|start| + 1..] == m' + hi;
  }

  lemma TrimNumeral(pad: string, n: string)
    requires AllWhite(pad) && IsNumeral(n)
    ensures Trim(n + pad) == n && Trim(pad + n) == n && '-' !in n + pad
  {
    NumeralIsPlain(n);
    hide Trim, IsNumeral;
    TrimPadded("", n, pad);
    TrimPadded(pad, n, "");
    assert "" + n + pad == n + pad && pad + n + "" == pad + n;
  }

  lemma CoreParses(t: Token)
    requires WellSpelled(t) && !t.Blank?
    ensures ParsePart(Core(t)).Ok? && PartSet(Core(t)) == Meaning(t)
  {
    hide AllWhite, Trim, ParsePart, ParseU32, IndexOf, Interval;
    match t
    case One(_, n, _) =>
      NumeralParses(n);
    case Span(_, lo, m, m', hi, _) =>
      TrimNumeral(m, lo);
      TrimNumeral(m', hi);
      var part, start := Core(t), lo + m;
      IndexAt(start, '-', m' + hi);
      assert part[..|start|] == start && part[|start| + 1..] == m' + hi;
      SpanParses(part, |start|, lo, hi);
  }

  lemma NumeralParses(n: string)
    requires IsNumeral(n)
    ensures ParsePart(n) == Ok((NumeralValue(n), NumeralValue(n))) && Interval(NumeralValue(n), NumeralValue(n)) == {NumeralValue(n)}
  {
    NumeralIsPlain(n);
    hide ParseU32;
    IndexAt(n, '-', "");
  }

  /** What trimming leaves of a piece. */
  lemma TrimSpelling(t: Token)
    requires WellSpelled(t)
    ensures Trim(Spell(t)) == Core(t) && (Core(t) == [] <==> t.Blank?)
  {
    hide AllWhite, Trim, ParseU32, IsWhite;
    match t
    case Blank(pad) => TrimBlank(pad);
    case One(b, n, a) =>
      NumeralEnds(n);
      TrimPadded(b, n, a);
    case Span(b, lo, m, m', hi, a) =>
      NumeralEnds(lo);
      NumeralEnds(hi);
      var core := Core(t);
      assert core[0] == lo[0] && core[|core| - 1] == hi[|hi| - 1];
      TrimPadded(b, core, a);
  }

  lemma NumeralEnds(n: string)
    requires IsNumeral(n)
    ensures n != [] && !IsWhite(n[0]) && !IsWhite(n[|n| - 1])
  {
    NumeralIsPlain(n);
  }

  lemma NoCommas(t: Token)
    requires WellSpelled(t)
    ensures ',' !in Spell(t)
  {
    hide ParseU32;
    match t
    case Blank(_) =>
    case One(_, n, _) => NumeralIsPlain(n);
    case Span(_, lo, _, _, hi, _) =>
      NumeralIsPlain(lo);
      NumeralIsPlain(hi);
  }

  function SpellAll(ts: seq<Token>): (s: string)
    requires ts != []
  {
    if |ts| == 1 then Spell(ts[0]) else Spell(ts[0]) + [','] + SpellAll(ts[1..])
  }

  function Spellings(ts: seq<Token>): (ss: seq<string>) {
    if ts == [] then [] else [Spell(ts[0])] + Spellings(ts[1..])
  }

  predicate AllWellSpelled(ts: seq<Token>) { forall i :: 0 <= i < |ts| ==> WellSpelled(ts[i]) }

  lemma {:induction false} SplitSpelling(ts: seq<Token>)
    requires ts != [] && AllWellSpelled(ts)
    ensures Split(SpellAll(ts)) == Spellings(ts)
    decreases |ts|
  {
    hide WellSpelled, Spell, IndexOf;
    NoCommas(ts[0]);
    var first := Spell(ts[0]);
    if |ts| == 1 {
      IndexAt(first, ',', "");
      assert Spellings(ts[1..]) == [];
    } else {
      var rest := SpellAll(ts[1..]);
      IndexAt(first, ',', rest);
      SplitSpelling(ts[1..]);
      var s := first + [','] + rest;
      assert s[..|first|] == first && s[|first| + 1..] == rest;
    }
  }

  function Meanings(ts: seq<Token>): (s: set<nat>)
    requires AllWellSpelled(ts)
  {
    if ts == [] then {} else Meaning(ts[0]) + Meanings(ts[1..])
  }

  lemma {:induction false} UnionCons(part: string, parts: seq<string>)
    ensures Union([part] + parts) == PartSet(part) + Union(parts)
    decreases |parts|
  {
    hide PartSet;
    var all := [part] + parts;
    if parts == [] {
      assert all[..0] == [] && Union(all) == Union(all[..0]) + PartSet(part);
    } else {
      var init := parts[..|parts| - 1];
      UnionCons(part, init);
      assert all[..|all| - 1] == [part] + init;
    }
  }

  lemma {:induction false} SpellingsMean(ts: seq<Token>)
    requires AllWellSpelled(ts)
    ensures AllParse(Parts(Spellings(ts))) && Union(Parts(Spellings(ts))) == Meanings(ts)
    decreases |ts|
  {
    if ts != [] {
      hide WellSpelled, Spell, Trim, ParsePart, Union, PartSet, Core, Parts, Spellings, Meaning, AllParse;
      var t, rest := ts[0], Parts(Spellings(ts[1..]));
      SpellingsMean(ts[1..]);
      PartsCons(t, ts);
      if t.Blank? {
        BlankMeansNothing(t);
      } else {
        CoreParses(t);
        UnionCons(Core(t), rest);
        AllParseCons(Core(t), rest);
      }
    }
  }

  lemma PartsCons(t: Token, ts: seq<Token>)
    requires ts != [] && ts[0] == t && WellSpelled(t)
    ensures Parts(Spellings(ts)) == (if t.Blank? then [] else [Core(t)]) + Parts(Spellings(ts[1..]))
    ensures t.Blank? ==> Parts(Spellings(ts)) == Parts(Spellings(ts[1..]))
  {
    hide WellSpelled, Spell, Trim, Core;
    TrimSpelling(t);
    assert Spellings(ts)[1..] == Spellings(ts[1..]);
  }

  lemma BlankMeansNothing(t: Token)
    requires WellSpelled(t) && t.Blank?
    ensures Meaning(t) == {}
  {
  }

  lemma AllParseCons(part: string, parts: seq<string>)
    requires ParsePart(part).Ok? && AllParse(parts)
    ensures AllParse([part] + parts)
  {
  }

  /** However the numbers and ranges are spelled, with signs, leading zeros, white space
      and empty pieces, the text denotes their union. */
  lemma SpelledSelection(ts: seq<Token>)
    requires ts != [] && AllWellSpelled(ts)
    ensures var parts := Parts(Split(SpellAll(ts))); AllParse(parts) && Union(parts) == Meanings(ts)
  {
    SplitSpelling(ts);
    SpellingsMean(ts);
  }

  // ------------------------------------------- nothing else is accepted

  lemma {:induction false} TrimStartShape(s: string) returns (pad: string)
    ensures AllWhite(pad) && s == pad + TrimStart(s)
  {
    hide IsWhite;
    if s != [] && IsWhite(s[0]) {
      var p := TrimStartShape(s[1..]);
      pad := [s[0]] + p;
    } else {
      pad := "";
    }
  }

  lemma {:induction false} TrimEndShape(s: string) returns (pad: string)
    ensures AllWhite(pad) && s == TrimEnd(s) + pad
  {
    hide IsWhite;
    if s != [] && IsWhite(s[|s| - 1]) {
      var p := TrimEndShape(s[..|s| - 1]);
      pad := p + [s[|s| - 1]];
    } else {
      pad := "";
    }
  }

  lemma TrimShape(s: string) returns (before: string, after: string)
    ensures AllWhite(before) && AllWhite(after) && s == before + Trim(s) + after
  {
    hide IsWhite;
    before := TrimStartShape(s);
    after := TrimEndShape(TrimStart(s));
  }

  lemma WhiteConcat(a: string, b: string)
    requires AllWhite(a) && AllWhite(b)
    ensures AllWhite(a + b)
  {
  }

  /** A piece that is blank or parses is a well-spelled token. */
  lemma PieceIsSpelled(p: string) returns (t: Token)
    requires Trim(p) == [] || ParsePart(Trim(p)).Ok?
    ensures WellSpelled(t) && Spell(t) == p
  {
    hide AllWhite, Trim, ParseU32, IndexOf;
    var before, after := TrimShape(p);
    var part := Trim(p);
    if part == [] {
      WhiteConcat(before, after);
      t := Blank(p);
      assert p == before + after;
    } else if IndexOf(part, '-') == |part| {
      t := One(before, part, after);
    } else {
      var i := IndexOf(part, '-');
      t := SpanIsSpelled(before, part, i, after);
      assert p == before + part + after;
    }
  }

  lemma SpanIsSpelled(before: string, part: string, i: nat, after: string) returns (t: Token)
    requires AllWhite(before) && AllWhite(after) && i == IndexOf(part, '-') < |part| && ParsePart(part).Ok?
    ensures WellSpelled(t) && Spell(t) == before + part + after
  {
    hide AllWhite, Trim, ParseU32, IndexOf;
    var left, mid := TrimShape(part[..i]);
    var mid', right := TrimShape(part[i + 1..]);
    var low, high := Trim(part[..i]), Trim(part[i + 1..]);
    t := Span(before + left, low, mid, mid', high, right + after);
    WhiteConcat(before, left);
    WhiteConcat(right, after);
    assert part == part[..i] + "-" + part[i + 1..];
    Regroup(before, left, low, mid, mid', high, right, after);
  }

  lemma Regroup(b: string, l: string, low: string, m: string, m': string, high: string, r: string, a: string)
    ensures (b + l) + ((low + m) + "-" + (m' + high)) + (r + a) == b + ((l + low + m) + "-" + (m' + high + r)) + a
  {
  }

  predicate PieceAccepted(p: string) { Trim(p) == [] || ParsePart(Trim(p)).Ok? }

  lemma {:induction false} AcceptedPieces(pieces: seq<string>, i: nat)
    requires i < |pieces|
    ensures AllParse(Parts(pieces)) ==> PieceAccepted(pieces[i])
  {
    hide Trim, ParsePart;
    var rest := Parts(pieces[1..]);
    var part := Trim(pieces[0]);
    if part != [] {
      assert Parts(pieces) == [part] + rest;
      assert Parts(pieces)[0] == part;
      assert forall k :: 0 <= k < |rest| ==> rest[k] == Parts(pieces)[k + 1];
    } else {
      assert Parts(pieces) == rest;
    }
    if i > 0 {
      AcceptedPieces(pieces[1..], i - 1);
    }
  }

  lemma {:induction false} SplitShape(s: string, ts: seq<Token>)
    requires Spellings(ts) == Split(s)
    ensures ts != [] && SpellAll(ts) == s
    decreases |s|
  {
    hide Spell;
    var i := IndexOf(s, ',');
    assert Spellings(ts)[0] == Spell(ts[0]);
    assert Spellings(ts)[1..] == Spellings(ts[1..]);
    if i < |s| {
      assert Split(s)[1..] == Split(s[i + 1..]);
      SplitShape(s[i + 1..], ts[1..]);
      assert s == s[..i] + [','] + s[i + 1..];
    } else {
      assert Split(s)[1..] == [];
    }
  }

  lemma {:induction false} PiecesAreSpelled(pieces: seq<string>) returns (ts: seq<Token>)
    requires forall i :: 0 <= i < |pieces| ==> PieceAccepted(pieces[i])
    ensures AllWellSpelled(ts) && Spellings(ts) == pieces
    decreases |pieces|
  {
    if pieces == [] {
      ts := [];
    } else {
      hide WellSpelled, Spell;
      var t := PieceIsSpelled(pieces[0]);
      var rest := PiecesAreSpelled(pieces[1..]);
      ts := [t] + rest;
      assert ts[1..] == rest;
    }
  }

  /** Every text whose parts all parse is such a spelling. */
  lemma AcceptedIsSpelled(s: string) returns (ts: seq<Token>)
    requires AllParse(Parts(Split(s)))
    ensures ts != [] && AllWellSpelled(ts) && SpellAll(ts) == s
  {
    hide PieceAccepted, Parts, Split, SpellAll;
    forall i | 0 <= i < |Split(s)| ensures PieceAccepted(Split(s)[i]) {
      AcceptedPieces(Split(s), i);
    }
    ts := PiecesAreSpelled(Split(s));
    SplitShape(s, ts);
  }

  // ----------------------------------------------------------- printed numbers

  function Printed(xs: seq<nat>): (ts: seq<Token>)
    ensures |ts| == |xs| && forall i :: 0 <= i < |xs| ==> ts[i] == One("", Print(xs[i]), "")
  {
    seq(|xs|, i requires 0 <= i < |xs| => One("", Print(xs[i]), ""))
  }

  lemma PrintIsNumeral(n: nat)
    requires n < TWO_32
    ensures IsNumeral(Print(n)) && NumeralValue(Print(n)) == n
  {
    PrintRoundTrip(n);
  }

  lemma {:induction false} PrintedMeans(xs: seq<nat>, x: nat)
    requires forall i :: 0 <= i < |xs| ==> xs[i] < TWO_32
    ensures AllWellSpelled(Printed(xs)) && (x in Meanings(Printed(xs)) <==> x in xs)
    decreases |xs|
  {
    hide IsNumeral, NumeralValue, Print;
    forall i | 0 <= i < |xs| ensures WellSpelled(Printed(xs)[i]) && Meaning(Printed(xs)[i]) == {xs[i]} {
      PrintIsNumeral(xs[i]);
    }
    if xs != [] {
      assert Printed(xs)[1..] == Printed(xs[1..]);
      PrintedMeans(xs[1..], x);
      assert Printed(xs)[0] == One("", Print(xs[0]), "");
      assert xs == [xs[0]] + xs[1..];
    }
  }

  /** Printing any non-empty set of numbers in bounds and parsing the text gives the set
      back, in order. */
  lemma PrintedRoundTrip(xs: seq<nat>, min: U32, max: U32)
    requires xs != [] && Increasing(xs) && forall i :: 0 <= i < |xs| ==> min <= xs[i] <= max
    ensures var parts := Parts(Split(SpellAll(Printed(xs))));
            && AllParse(parts) && Within(Chosen(parts, min, max), min, max)
            && Ascending(Chosen(parts, min, max), TWO_32) == xs
  {
    hide Ascending, Union, Meanings, ParsePart, WellSpelled, Parts, Split, SpellAll, Interval;
    var ts := Printed(xs);
    PrintedMeans(xs, 0);
    forall x ensures AllWellSpelled(ts) && (x in Meanings(ts) <==> x in xs) {
      PrintedMeans(xs, x);
    }
    assert xs[0] in Meanings(ts);
    SpelledSelection(ts);
    var chosen := Chosen(Parts(Split(SpellAll(ts))), min, max);
    IncreasingIsUnique(Ascending(chosen, TWO_32), xs);
  }
}
