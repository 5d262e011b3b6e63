/** LIKE patterns: the backtracking matcher, the shape optimiser in front of it,
and what both must mean. `%` stands for any text, `_` for one character, and a
backslash makes the next character literal (a trailing one stands for itself).
*/
module Like {

  datatype Token = Any | One | Literally(c: char)

  function Tokens(pattern: string): (ts: seq<Token>) {
    if pattern == [] then []
    else if pattern[0] == '%' then [Any] + Tokens(pattern[1..])
    else if pattern[0] == '_' then [One] + Tokens(pattern[1..])
    else if pattern[0] == '\\' then
      if |pattern| == 1 then [Literally('\\')] else [Literally(pattern[1])] + Tokens(pattern[2..])
    else [Literally(pattern[0])] + Tokens(pattern[1..])
  }

  /** Some way of dividing the value among the tokens exists. */
  predicate Matches(value: string, ts: seq<Token>)
    decreases |ts|
  {
    if ts == [] then value == []
    else match ts[0]
      case Any => exists k :: 0 <= k <= |value| && Matches(value[k..], ts[1..])
      case One => value != [] && Matches(value[1..], ts[1..])
      case Literally(c) => value != [] && value[0] == c && Matches(value[1..], ts[1..])
  }

  /** What a pattern means by its first characters. */
  lemma PatternLaws(value: string, c: char, rest: string)
    ensures Matches(value, Tokens("")) <==> value == ""
    ensures Matches(value, Tokens("%" + rest)) <==> exists k :: 0 <= k <= |value| && Matches(value[k..], Tokens(rest))
    ensures Matches(value, Tokens("_" + rest)) <==> value != [] && Matches(value[1..], Tokens(rest))
    ensures Matches(value, Tokens(['\\', c] + rest)) <==> value != [] && value[0] == c && Matches(value[1..], Tokens(rest))
    ensures c !in "%_\\" ==> (Matches(value, Tokens([c] + rest)) <==> value != [] && value[0] == c && Matches(value[1..], Tokens(rest)))
    ensures Matches(value, Tokens("\\")) <==> value == "\\"
  {
    assert ("%" + rest)[1..] == rest && ("_" + rest)[1..] == rest && ([c] + rest)[1..] == rest;
    assert (['\\', c] + rest)[2..] == rest;
    var ts := Tokens(rest);
    assert ([Any] + ts)[1..] == ts && ([One] + ts)[1..] == ts && ([Literally(c)] + ts)[1..] == ts;
    assert [Literally('\\')][1..] == [] && Tokens("") == [];
    if value != [] { assert value == [value[0]] + value[1..]; }
    if c !in "%_\\" { NotSpecial(c); }
  }

  lemma NotSpecial(c: char)
    requires c !in "%_\\"
    ensures c != '%' && c != '_' && c != '\\'
  {
    assert "%_\\"[0] == '%' && "%_\\"[1] == '_' && "%_\\"[2] == '\\';
  }

  // ------------------------------------------------------------ the matcher

  lemma AnyAny(value: string, ts: seq<Token>)
    ensures Matches(value, [Any, Any] + ts) <==> Matches(value, [Any] + ts)
  {
    assert ([Any, Any] + ts)[1..] == [Any] + ts && ([Any] + ts)[1..] == ts;
    if Matches(value, [Any, Any] + ts) {
      var k :| 0 <= k <= |value| && Matches(value[k..], [Any] + ts);
      var j :| 0 <= j <= |value[k..]| && Matches(value[k..][j..], ts);
      assert value[k..][j..] == value[k + j..];
    }
    if Matches(value, [Any] + ts) {
      assert value[0..] == value;
    }
  }

  lemma AnyLast(value: string)
    ensures Matches(value, [Any])
  {
    assert [Any][1..] == [];
    assert value[|value|..] == [];
    assert Matches(value[|value|..], []);
  }

  lemma TokensStep(pattern: string, pi: nat)
    requires pi < |pattern|
    ensures pattern[pi] == '%' ==> Tokens(pattern[pi..]) == [Any] + Tokens(pattern[pi + 1..])
    ensures pattern[pi] == '_' ==> Tokens(pattern[pi..]) == [One] + Tokens(pattern[pi + 1..])
    ensures pattern[pi] == '\\' && pi + 1 < |pattern| ==> Tokens(pattern[pi..]) == [Literally(pattern[pi + 1])] + Tokens(pattern[pi + 2..])
    ensures pattern[pi] == '\\' && pi + 1 == |pattern| ==> Tokens(pattern[pi..]) == [Literally('\\')] + Tokens(pattern[pi + 1..])
    ensures pattern[pi] !in {'%', '_', '\\'} ==> Tokens(pattern[pi..]) == [Literally(pattern[pi])] + Tokens(pattern[pi + 1..])
  {
    var p := pattern[pi..];
    assert p[1..] == pattern[pi + 1..];
    if pi + 1 < |pattern| { assert p[2..] == pattern[pi + 2..]; }
  }

  /** One token consumes one character, or fails. */
  lemma MatchStep(value: string, vi: nat, t: Token, ts: seq<Token>)
    requires vi <= |value| && !t.Any?
    ensures Matches(value[vi..], [t] + ts)
       <==> vi < |value| && (t.One? || value[vi] == t.c) && Matches(value[vi + 1..], ts)
  {
    assert ([t] + ts)[1..] == ts;
    if vi < |value| { assert value[vi..][1..] == value[vi + 1..]; }
  }

  lemma AnyFrom(value: string, vi: nat, ts: seq<Token>)
    requires vi <= |value|
    ensures Matches(value[vi..], [Any] + ts) <==> exists k :: vi <= k <= |value| && Matches(value[k..], ts)
  {
    assert ([Any] + ts)[1..] == ts;
    if Matches(value[vi..], [Any] + ts) {
      var k :| 0 <= k <= |value[vi..]| && Matches(value[vi..][k..], ts);
      assert value[vi..][k..] == value[vi + k..];
    }
    if exists k :: vi <= k <= |value| && Matches(value[k..], ts) {
      var k :| vi <= k <= |value| && Matches(value[k..], ts);
      assert value[vi..][k - vi..] == value[k..];
    }
  }

  /** The matcher finds a division exactly when there is one. */
  method LikeMatch(value: string, vi0: nat, pattern: string, pi0: nat) returns (r: bool)
    requires vi0 <= |value| && pi0 <= |pattern|
    ensures r == Matches(value[vi0..], Tokens(pattern[pi0..]))
    decreases |pattern| - pi0
  {
    hide Matches, Tokens;
    var vi, pi := vi0, pi0;
    while pi < |pattern|
      invariant pi0 <= pi <= |pattern| && 0 <= vi <= |value|
      invariant Matches(value[vi0..], Tokens(pattern[pi0..])) == Matches(value[vi..], Tokens(pattern[pi..]))
      decreases |pattern| - pi
    {
      TokensStep(pattern, pi);
      if pattern[pi] == '%' {
        r := MatchAny(value, vi, pattern, pi);
        return;
      } else if pattern[pi] == '_' {
        MatchStep(value, vi, One, Tokens(pattern[pi + 1..]));
        if vi == |value| { return false; }
        vi, pi := vi + 1, pi + 1;
      } else if pattern[pi] == '\\' {
        var expected;
        if pi + 1 < |pattern| {
          expected := pattern[pi + 1];
          pi := pi + 2;
        } else {
          expected := '\\';
          pi := pi + 1;
        }
        MatchStep(value, vi, Literally(expected), Tokens(pattern[pi..]));
        if vi == |value| || value[vi] != expected { return false; }
        vi := vi + 1;
      } else {
        MatchStep(value, vi, Literally(pattern[pi]), Tokens(pattern[pi + 1..]));
        if vi == |value| || value[vi] != pattern[pi] { return false; }
        vi, pi := vi + 1, pi + 1;
      }
    }
    NoTokens(value, vi, pattern);
    r := vi == |value|;
  }

  lemma NoTokens(value: string, vi: nat, pattern: string)
    requires vi <= |value|
    ensures Matches(value[vi..], Tokens(pattern[|pattern|..])) <==> vi == |value|
  {
    assert pattern[|pattern|..] == [];
  }

  /** The `%` branch: collapse the run, then try every suffix. */
  method MatchAny(value: string, vi0: nat, pattern: string, pi0: nat) returns (r: bool)
    requires vi0 <= |value| && pi0 < |pattern| && pattern[pi0] == '%'
    ensures r == Matches(value[vi0..], Tokens(pattern[pi0..]))
    decreases |pattern| - pi0, 0
  {
    hide Matches, Tokens;
    TokensStep(pattern, pi0);
    var vi, pi := vi0, pi0 + 1;
    while pi < |pattern| && pattern[pi] == '%'
      invariant pi0 < pi <= |pattern|
      invariant Matches(value[vi0..], Tokens(pattern[pi0..])) == Matches(value[vi0..], [Any] + Tokens(pattern[pi..]))
    {
      TokensStep(pattern, pi);
      AnyAny(value[vi0..], Tokens(pattern[pi + 1..]));
      assert [Any, Any] + Tokens(pattern[pi + 1..]) == [Any] + Tokens(pattern[pi..]);
      pi := pi + 1;
    }
    if pi == |pattern| {
      TokensNil(pattern);
      AnyLast(value[vi0..]);
      return true;
    }
    ghost var rest := Tokens(pattern[pi..]);
    AnyFrom(value, vi0, rest);
    while vi <= |value|
      invariant vi0 <= vi <= |value|
      invariant forall k :: vi0 <= k < vi ==> !Matches(value[k..], rest)
      decreases |value| - vi
    {
      var one := LikeMatch(value, vi, pattern, pi);
      if one { return true; }
      if vi == |value| { return false; }
      vi := vi + 1;
    }
    r := false;
  }

  lemma TokensNil(pattern: string)
    ensures [Any] + Tokens(pattern[|pattern|..]) == [Any]
  {
    assert pattern[|pattern|..] == [];
  }

  // ---------------------------------------------------------- the optimiser

  datatype Shape = Equals(text: string) | StartsWith(text: string) | EndsWith(text: string) | Contains(text: string) | Residual

  function Percents(s: string): (n: nat) {
    if s == [] then 0 else (if s[0] == '%' then 1 else 0) + Percents(s[1..])
  }

  function Optimize(pattern: string): (shape: Shape) {
    var n := |pattern|;
    if pattern == [] || '\\' in pattern || '_' in pattern then Residual
    else if Percents(pattern) == 0 then Equals(pattern)
    else if Percents(pattern) == 1 && n > 1 then
      if pattern[n - 1] == '%' then StartsWith(pattern[..n - 1])
      else if pattern[0] == '%' then EndsWith(pattern[1..])
      else Residual
    else if Percents(pattern) == 2 && n > 2 && pattern[0] == '%' && pattern[n - 1] == '%' then Contains(pattern[1..n - 1])
    else Residual
  }

  predicate OccursAt(value: string, text: string, k: nat) { k + |text| <= |value| && value[k..k + |text|] == text }

  predicate ShapeMatches(shape: Shape, value: string)
    requires !shape.Residual?
  {
    match shape
    case Equals(t) => value == t
    case StartsWith(t) => OccursAt(value, t, 0)
    case EndsWith(t) => |t| <= |value| && OccursAt(value, t, |value| - |t|)
    case Contains(t) => exists k :: 0 <= k <= |value| && OccursAt(value, t, k)
  }

  predicate Plain(s: string) { forall i :: 0 <= i < |s| ==> s[i] !in {'%', '_', '\\'} }

  lemma {:induction false} PercentsSplit(a: string, b: string)
    ensures Percents(a + b) == Percents(a) + Percents(b)
  {
    if a == [] {
      assert a + b == b;
    } else {
      PercentsSplit(a[1..], b);
      assert (a + b)[1..] == a[1..] + b;
    }
  }

  lemma {:induction false} NoPercentIsPlain(s: string)
    requires '\\' !in s && '_' !in s
    ensures Percents(s) == 0 <==> Plain(s)
  {
    if s != [] {
      NoPercentIsPlain(s[1..]);
      assert forall i :: 0 < i < |s| ==> s[i] == s[1..][i - 1];
      if Plain(s[1..]) && s[0] != '%' { assert s[0] in s; }
      if Plain(s) { assert forall i :: 0 <= i < |s[1..]| ==> s[1..][i] == s[i + 1]; }
    }
  }

  /** Plain text in a pattern matches itself and nothing else. */
  lemma {:induction false} PlainMatches(s: string, tail: string, value: string)
    requires Plain(s)
    ensures Matches(value, Tokens(s + tail)) <==> OccursAt(value, s, 0) && Matches(value[|s|..], Tokens(tail))
  {
    if s == [] {
      assert s + tail == tail && value[0..] == value;
    } else {
      hide Matches, Tokens;
      assert (s + tail)[0..] == s + tail && (s + tail)[1..] == s[1..] + tail && value[0..] == value;
      TokensStep(s + tail, 0);
      MatchStep(value, 0, Literally(s[0]), Tokens(s[1..] + tail));
      if value != [] {
        PlainMatches(s[1..], tail, value[1..]);
        if |s| <= |value| { assert value[1..][|s| - 1..] == value[|s|..]; }
        HeadOccurs(s, value);
      }
    }
  }

  lemma HeadOccurs(s: string, value: string)
    requires s != [] && value != []
    ensures OccursAt(value, s, 0) <==> s[0] == value[0] && OccursAt(value[1..], s[1..], 0)
  {
    if |s| <= |value| {
      assert value[0..|s|] == [value[0]] + value[1..][0..|s| - 1];
      assert s == [s[0]] + s[1..];
    }
  }

  lemma PlainAlone(s: string, value: string)
    requires Plain(s)
    ensures Matches(value, Tokens(s)) <==> value == s
  {
    PlainMatches(s, [], value);
    assert s + [] == s;
  }

  /** Whatever shape the optimiser picks accepts exactly what the pattern accepts. */
  lemma OptimizeMeans(pattern: string, value: string)
    requires !Optimize(pattern).Residual?
    ensures ShapeMatches(Optimize(pattern), value) <==> Matches(value, Tokens(pattern))
  {
    hide Matches, Tokens;
    var n := |pattern|;
    match Optimize(pattern) {
      case Equals(t) =>
        NoPercentIsPlain(pattern);
        PlainAlone(pattern, value);
      case StartsWith(t) =>
        assert pattern == t + "%";
        PrefixMeans(t, value);
      case EndsWith(t) =>
        assert pattern == "%" + t;
        SuffixMeans(t, value);
      case Contains(t) =>
        assert pattern == "%" + (t + "%");
        MiddleMeans(t, value);
    }
  }

  /** The pattern a shape stands for. */
  function PatternOf(shape: Shape): (p: string)
    requires !shape.Residual?
  {
    match shape
    case Equals(t) => t
    case StartsWith(t) => t + "%"
    case EndsWith(t) => "%" + t
    case Contains(t) => "%" + (t + "%")
  }

  /** A shape is picked exactly for plain, non-empty text: alone, or with a percent sign
      after it, before it or on both sides. */
  lemma OptimizeIff(pattern: string, shape: Shape)
    requires !shape.Residual?
    ensures Optimize(pattern) == shape <==> Plain(shape.text) && shape.text != [] && pattern == PatternOf(shape)
  {
    hide Optimize, Plain;
    if Optimize(pattern) == shape { PickedIsPlain(pattern); }
    if Plain(shape.text) && shape.text != [] { PlainIsPicked(shape); }
  }

  lemma PickedIsPlain(pattern: string)
    requires !Optimize(pattern).Residual?
    ensures var shape := Optimize(pattern); Plain(shape.text) && shape.text != [] && pattern == PatternOf(shape)
  {
    hide Percents;
    var shape := Optimize(pattern);
    var t := shape.text;
    PercentTokens();
    assert forall c :: c in t ==> c in pattern;
    match shape {
      case Equals(_) =>
      case StartsWith(_) =>
        assert pattern == t + "%";
        PercentsSplit(t, "%");
      case EndsWith(_) =>
        assert pattern == "%" + t;
        PercentsSplit("%", t);
      case Contains(_) =>
        assert pattern == "%" + (t + "%");
        PercentsSplit("%", t + "%");
        PercentsSplit(t, "%");
    }
    NoPercentIsPlain(t);
  }

  lemma PlainIsPicked(shape: Shape)
    requires !shape.Residual? && Plain(shape.text) && shape.text != []
    ensures Optimize(PatternOf(shape)) == shape
  {
    hide Percents, Plain;
    var t, p := shape.text, PatternOf(shape);
    PlainFacts(t);
    SpecialIn(shape);
    match shape {
      case Equals(_) =>
      case StartsWith(_) => assert p[..|p| - 1] == t && p[|p| - 1] == '%';
      case EndsWith(_) => assert p[1..] == t && p[|p| - 1] == t[|t| - 1] && p[0] == '%';
      case Contains(_) => assert p[1..|p| - 1] == t && p[0] == '%' && p[|p| - 1] == '%';
    }
  }

  lemma PlainFacts(t: string)
    requires Plain(t)
    ensures '\\' !in t && '_' !in t && '%' !in t && Percents(t) == 0 && (t != [] ==> t[|t| - 1] != '%')
  {
    assert forall c :: c in t ==> c !in {'%', '_', '\\'};
    NoPercentIsPlain(t);
  }

  /** Percent signs, and no other special characters, are added to the text. */
  lemma SpecialIn(shape: Shape)
    requires !shape.Residual? && Percents(shape.text) == 0 && '\\' !in shape.text && '_' !in shape.text
    ensures '\\' !in PatternOf(shape) && '_' !in PatternOf(shape)
    ensures Percents(PatternOf(shape)) == if shape.Equals? then 0 else if shape.Contains? then 2 else 1
  {
    hide Percents;
    var t := shape.text;
    PercentTokens();
    PercentsSplit(t, "%");
    PercentsSplit("%", t);
    PercentsSplit("%", t + "%");
  }

  lemma PercentTokens()
    ensures Tokens("%") == [Any] && Percents("%") == 1
  {
    assert "%"[1..] == [];
  }

  lemma LeadingPercent(s: string)
    ensures Tokens("%" + s) == [Any] + Tokens(s) && Percents("%" + s) == 1 + Percents(s)
  {
    assert ("%" + s)[1..] == s;
  }

  lemma PrefixMeans(t: string, value: string)
    requires '\\' !in t + "%" && '_' !in t + "%" && Percents(t + "%") == 1
    ensures OccursAt(value, t, 0) <==> Matches(value, Tokens(t + "%"))
  {
    hide Matches, Tokens;
    PercentsSplit(t, "%");
    PercentTokens();
    assert forall c :: c in t ==> c in t + "%";
    NoPercentIsPlain(t);
    PlainMatches(t, "%", value);
    if OccursAt(value, t, 0) { AnyLast(value[|t|..]); }
  }

  lemma EndIs(t: string, value: string)
    requires |t| <= |value|
    ensures OccursAt(value, t, |value| - |t|) <==> value[|value| - |t|..] == t
  {
    var k := |value| - |t|;
    assert value[k..k + |t|] == value[k..];
  }

  lemma SuffixMeans(t: string, value: string)
    requires '\\' !in "%" + t && '_' !in "%" + t && Percents("%" + t) == 1
    ensures |t| <= |value| && OccursAt(value, t, |value| - |t|) <==> Matches(value, Tokens("%" + t))
  {
    hide Matches, Tokens, OccursAt;
    LeadingPercent(t);
    if |t| <= |value| { EndIs(t, value); }
    assert forall c :: c in t ==> c in "%" + t;
    NoPercentIsPlain(t);
    AnyFrom(value, 0, Tokens(t));
    assert value[0..] == value;
    if |t| <= |value| && OccursAt(value, t, |value| - |t|) {
      PlainAlone(t, value[|value| - |t|..]);
    }
    if Matches(value, Tokens("%" + t)) {
      var k :| 0 <= k <= |value| && Matches(value[k..], Tokens(t));
      PlainAlone(t, value[k..]);
      assert k == |value| - |t|;
    }
  }

  lemma MiddleMeans(t: string, value: string)
    requires '\\' !in "%" + (t + "%") && '_' !in "%" + (t + "%") && Percents("%" + (t + "%")) == 2
    ensures (exists k :: 0 <= k <= |value| && OccursAt(value, t, k)) <==> Matches(value, Tokens("%" + (t + "%")))
  {
    hide Matches, Tokens;
    LeadingPercent(t + "%");
    assert forall c :: c in t + "%" ==> c in "%" + (t + "%");
    AnyFrom(value, 0, Tokens(t + "%"));
    assert value[0..] == value;
    forall k | 0 <= k <= |value| ensures Matches(value[k..], Tokens(t + "%")) <==> OccursAt(value, t, k) {
      PrefixMeans(t, value[k..]);
      if k + |t| <= |value| { assert value[k..][0..|t|] == value[k..k + |t|]; }
    }
  }

  /** The leaf a LIKE predicate becomes, and its evaluation on a non-null string. */
  method BuildAndEvaluate(pattern: string, value: string) returns (holds: bool)
    ensures holds <==> Matches(value, Tokens(pattern))
  {
    hide Matches, Tokens;
    var shape := Optimize(pattern);
    if shape.Residual? {
      assert value[0..] == value && pattern[0..] == pattern;
      holds := LikeMatch(value, 0, pattern, 0);
    } else {
      OptimizeMeans(pattern, value);
      holds := ShapeMatches(shape, value);
    }
  }
}
