/** Delimited identifiers (section 5.2 of ISO/IEC 9075-2) as the TPC-DS tools write them,
and the reader that section defines for them.
*/
module Quoting {
  import opened Options

  const QUOTE: char := '\"'

  function Doubled(s: string): (r: string) {
    if s == [] then [] else (if s[0] == QUOTE then [QUOTE, QUOTE] else [s[0]]) + Doubled(s[1..])
  }

  function QuoteIdentifier(s: string): (r: string) { [QUOTE] + Doubled(s) + [QUOTE] }

  /** catalog.database.table */
  function Reference(catalog: string, database: string, table: string): (r: string) {
    QuoteIdentifier(catalog) + "." + QuoteIdentifier(database) + "." + QuoteIdentifier(table)
  }

  // -------------------------------------------------------------- the reader

  /** Past the opening quote: the identifier, and the text after the closing quote. */
  function ReadBody(s: string): (r: Option<(string, string)>)
    ensures r.Some? ==> |r.value.1| < |s|
  {
    if s == [] then None
    else if s[0] != QUOTE then Prepend(s[0], ReadBody(s[1..]))
    else if |s| > 1 && s[1] == QUOTE then Prepend(QUOTE, ReadBody(s[2..]))
    else Some(([], s[1..]))
  }

  function Prepend(c: char, r: Option<(string, string)>): (p: Option<(string, string)>) {
    if r.None? then None else Some(([c] + r.value.0, r.value.1))
  }

  function ReadIdentifier(s: string): (r: Option<(string, string)>)
    ensures r.Some? ==> |r.value.1| < |s|
  {
    if s == [] || s[0] != QUOTE then None else ReadBody(s[1..])
  }

  /** An identifier, then a dot. */
  function ReadQualifier(s: string): (r: Option<(string, string)>) {
    match ReadIdentifier(s)
    case None => None
    case Some((name, rest)) => if rest == [] || rest[0] != '.' then None else Some((name, rest[1..]))
  }

  function ReadReference(s: string): (r: Option<(string, string, string)>) {
    match ReadQualifier(s)
    case None => None
    case Some((catalog, rest)) =>
      match ReadQualifier(rest)
      case None => None
      case Some((database, rest')) =>
        match ReadIdentifier(rest')
        case None => None
        case Some((table, rest'')) => if rest'' == [] then Some((catalog, database, table)) else None
  }

  // -------------------------------------------------------------- round trip

  predicate Ends(rest: string) { rest == [] || rest[0] != QUOTE }

  lemma {:induction false} BodyRoundTrip(name: string, rest: string)
    requires Ends(rest)
    ensures ReadBody(Doubled(name) + [QUOTE] + rest) == Some((name, rest))
  {
    var s := Doubled(name) + [QUOTE] + rest;
    if name == [] {
      assert s == [QUOTE] + rest;
    } else {
      BodyRoundTrip(name[1..], rest);
      var tail := Doubled(name[1..]) + [QUOTE] + rest;
      if name[0] == QUOTE {
        assert s == [QUOTE, QUOTE] + tail && s[2..] == tail;
      } else {
        assert s == [name[0]] + tail && s[1..] == tail;
      }
      assert [name[0]] + name[1..] == name;
    }
  }

  /** Whatever the reader accepts was written this way. */
  lemma {:induction false} BodyIsDoubled(s: string)
    requires ReadBody(s).Some?
    ensures var (name, rest) := ReadBody(s).value; s == Doubled(name) + [QUOTE] + rest && Ends(rest)
    decreases |s|
  {
    if s[0] != QUOTE {
      BodyIsDoubled(s[1..]);
      var (name, rest) := ReadBody(s[1..]).value;
      DoubledStep(s[0], name);
      assert s == [s[0]] + s[1..];
    } else if |s| > 1 && s[1] == QUOTE {
      BodyIsDoubled(s[2..]);
      var (name, rest) := ReadBody(s[2..]).value;
      DoubledStep(QUOTE, name);
      assert s == [QUOTE, QUOTE] + s[2..];
    } else {
      assert s == [QUOTE] + s[1..];
    }
  }

  lemma DoubledStep(c: char, name: string)
    ensures Doubled([c] + name) == (if c == QUOTE then [QUOTE, QUOTE] else [c]) + Doubled(name)
  {
    assert ([c] + name)[1..] == name;
  }

  lemma IdentifierIff(s: string, name: string, rest: string)
    requires Ends(rest)
    ensures ReadIdentifier(s) == Some((name, rest)) <==> s == QuoteIdentifier(name) + rest
  {
    if ReadIdentifier(s) == Some((name, rest)) {
      BodyIsDoubled(s[1..]);
      assert s == [QUOTE] + s[1..];
    }
    if s == QuoteIdentifier(name) + rest {
      assert s[1..] == Doubled(name) + [QUOTE] + rest;
      BodyRoundTrip(name, rest);
    }
  }

  /** Unquoting a quoted identifier gives it back, and only its own spelling does. */
  lemma QuoteRoundTrip(s: string, name: string)
    ensures ReadIdentifier(s) == Some((name, "")) <==> s == QuoteIdentifier(name)
  {
    IdentifierIff(s, name, "");
    assert QuoteIdentifier(name) + "" == QuoteIdentifier(name);
  }

  lemma QualifierIff(s: string, name: string, rest: string)
    ensures ReadQualifier(s) == Some((name, rest)) <==> s == QuoteIdentifier(name) + "." + rest
  {
    IdentifierIff(s, name, "." + rest);
    assert QuoteIdentifier(name) + "." + rest == QuoteIdentifier(name) + ("." + rest);
    if ReadQualifier(s) == Some((name, rest)) {
      var rest' := ReadIdentifier(s).value.1;
      assert rest' == "." + rest;
    }
  }

  /** A three-part reference reads back as exactly one triple, quotes and dots inside the
      names included. */
  lemma ReferenceRoundTrip(s: string, catalog: string, database: string, table: string)
    ensures ReadReference(s) == Some((catalog, database, table)) <==> s == Reference(catalog, database, table)
  {
    hide ReadQualifier, ReadIdentifier, QuoteIdentifier;
    var last := QuoteIdentifier(table);
    var middle := QuoteIdentifier(database) + "." + last;
    assert Reference(catalog, database, table) == QuoteIdentifier(catalog) + "." + middle;
    QualifierIff(s, catalog, middle);
    QualifierIff(middle, database, last);
    QuoteRoundTrip(last, table);
    if ReadReference(s) == Some((catalog, database, table)) {
      var rest := ReadQualifier(s).value.1;
      var rest' := ReadQualifier(rest).value.1;
      QualifierIff(s, catalog, rest);
      QualifierIff(rest, database, rest');
      QuoteRoundTrip(rest', table);
    }
  }

  /** So two different triples never share a spelling. */
  lemma ReferencesDiffer(c: string, d: string, t: string, c': string, d': string, t': string)
    requires Reference(c, d, t) == Reference(c', d', t')
    ensures c == c' && d == d' && t == t'
  {
    ReferenceRoundTrip(Reference(c, d, t), c, d, t);
    ReferenceRoundTrip(Reference(c, d, t), c', d', t');
  }
}
