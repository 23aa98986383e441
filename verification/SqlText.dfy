/** The SQL that the query translators write, and a reader of it that knows character
    string literals (ISO/IEC 9075-2, section 5.3: a quote inside is written twice). */
module SqlText {
  import opened Wrappers
  import opened GoStrings

  // ------------------------------------------------------------------ writing

  function Doubled(v: string): string {
    if v == [] then [] else (if v[0] == '\'' then "''" else [v[0]]) + Doubled(v[1..])
  }

  /** A value without the blanks and the quotes around it. */
  function Stripped(v: string): string {
    TrimQuotes(TrimSpace(v))
  }

  /** escapeSQLValue. */
  function EscapeSqlValue(v: string): string {
    Doubled(Stripped(v))
  }

  /** sanitizeSQLIdentifier. */
  function SanitizeSqlIdentifier(v: string): string {
    Underscored(Stripped(v))
  }

  function Quoted(text: string): string {
    "'" + text + "'"
  }

  // ------------------------------------------------------------------ reading

  /** The rest of a literal after its opening quote: its value, and what follows. */
  function ReadBody(s: string): (r: Option<(string, string)>)
    ensures r.Some? ==> |r.value.1| < |s|
  {
    if s == [] then None
    else if s[0] != '\'' then
      match ReadBody(s[1..])
      case None => None
      case Some(r) => Some(([s[0]] + r.0, r.1))
    else if |s| > 1 && s[1] == '\'' then
      match ReadBody(s[2..])
      case None => None
      case Some(r) => Some((['\''] + r.0, r.1))
    else Some(([], s[1..]))
  }

  function ReadLiteral(s: string): (r: Option<(string, string)>)
    ensures r.Some? ==> |r.value.1| < |s|
  {
    if s != [] && s[0] == '\'' then ReadBody(s[1..]) else None
  }

  function Prepend(v: string, r: Option<(string, string)>): Option<(string, string)> {
    match r
    case None => None
    case Some(x) => Some((v + x.0, x.1))
  }

  lemma ReadFirst(c: char, first: string, rest: string, s: string)
    requires first == (if c == '\'' then "''" else [c]) && s == first + rest
    ensures ReadBody(s) == Prepend([c], ReadBody(rest))
  {
    assert s[|first|..] == rest && s[0] == c;
  }

  lemma PrependTwice(c: char, rest: string, v: string, r: Option<(string, string)>)
    requires v == [c] + rest
    ensures Prepend([c], Prepend(rest, r)) == Prepend(v, r)
  {
    if r.Some? { Regroup([c], rest, r.value.0); }
  }

  /** The reader takes a doubled text for the text itself, whatever follows. */
  lemma {:induction false} ReadDoubled(v: string, tail: string)
    ensures ReadBody(Doubled(v) + tail) == Prepend(v, ReadBody(tail))
  {
    if v == [] {
      assert Doubled(v) + tail == tail;
      assert forall x: string :: [] + x == x;
    } else {
      ReadDoubled(v[1..], tail);
      var first := if v[0] == '\'' then "''" else [v[0]];
      Regroup(first, Doubled(v[1..]), tail);
      ReadFirst(v[0], first, Doubled(v[1..]) + tail, Doubled(v) + tail);
      PrependTwice(v[0], v[1..], v, ReadBody(tail));
    }
  }

  /** Whatever follows, reading never takes more than the closing quote, and takes the
      literal for exactly the value if and only if no quote follows it. */
  lemma ReadQuoted(v: string, rest: string)
    ensures (rest == [] || rest[0] != '\'') <==> ReadLiteral(Quoted(Doubled(v)) + rest) == Some((v, rest))
  {
    var tail := "'" + rest;
    assert (Quoted(Doubled(v)) + rest)[1..] == Doubled(v) + tail;
    ReadDoubled(v, tail);
    assert tail[1..] == rest;
    assert v + [] == v;
  }

  /** SQL literal round trip: for every value at all, the quoted escaped value is read
      back as the stripped value, and nothing after it is consumed. */
  lemma LiteralRoundTrip(v: string, rest: string)
    ensures (rest == [] || rest[0] != '\'') <==>
            ReadLiteral("'" + EscapeSqlValue(v) + "'" + rest) == Some((Stripped(v), rest))
  {
    ReadQuoted(Stripped(v), rest);
  }

  // ---------------------------------------------------- text without quotes

  lemma {:induction false} DoubledPlain(v: string)
    requires '\'' !in v
    ensures Doubled(v) == v
  {
    if v != [] { DoubledPlain(v[1..]); }
  }

  /** Unescaped text without a quote is read back as itself ... */
  lemma ReadPlain(v: string, rest: string)
    requires rest == [] || rest[0] != '\''
    requires '\'' !in v
    ensures ReadLiteral(Quoted(v) + rest) == Some((v, rest))
  {
    DoubledPlain(v);
    ReadQuoted(v, rest);
  }

  function Run(s: string): (n: nat)
    ensures n <= |s| && (forall k :: 0 <= k < n ==> s[k] == '\'') && (n < |s| ==> s[n] != '\'')
  {
    if s != [] && s[0] == '\'' then 1 + Run(s[1..]) else 0
  }

  /** A run of quotes is read as half as many; an odd run ends the literal. */
  lemma {:induction false} ReadRun(n: nat, s: string)
    requires n <= |s| && (forall k :: 0 <= k < n ==> s[k] == '\'') && (n < |s| ==> s[n] != '\'')
    ensures var r := ReadBody(s);
            r.Some? ==> if n % 2 == 1 then |r.value.0| == n / 2
                        else n < |s| && |r.value.0| > n / 2 && r.value.0[n / 2] == s[n]
    decreases n
  {
    if n >= 2 {
      ReadRun(n - 2, s[2..]);
    }
  }

  /** A run that goes on to the closing quote of its literal is read as something else. */
  lemma ReadSpoiltRun(v: string, rest: string, s: string)
    requires v != [] && (forall k :: 0 <= k < |v| ==> v[k] == '\'') && s == v + ("'" + rest)
    requires rest == [] || rest[0] != '\''
    ensures ReadBody(s).Some? ==> ReadBody(s).value.0 != v
  {
    ReadRun(|v| + 1, s);
  }

  /** ... and text with a quote inside never is, up to the quote that is to close it. */
  lemma {:induction false} ReadSpoilt(v: string, rest: string, s: string)
    requires '\'' in v && (rest == [] || rest[0] != '\'') && s == v + ("'" + rest)
    ensures ReadBody(s).Some? ==> ReadBody(s).value.0 != v
    decreases |v|
  {
    if v[0] == '\'' {
      var n := Run(v);
      if n == |v| { ReadSpoiltRun(v, rest, s); } else { ReadRun(n, s); }
    } else {
      assert s[1..] == v[1..] + ("'" + rest);
      ReadSpoilt(v[1..], rest, s[1..]);
    }
  }

  lemma SpoiltLiteral(v: string, rest: string)
    requires '\'' in v && (rest == [] || rest[0] != '\'')
    ensures var r := ReadLiteral(Quoted(v) + rest); r.Some? ==> r.value.0 != v
  {
    var s := v + ("'" + rest);
    assert (Quoted(v) + rest)[1..] == s;
    ReadSpoilt(v, rest, s);
  }

  /** Two quoted texts with something between them, as one format string writes them. */
  lemma QuotedPair(key: string, sep: string, mid: string, val: string)
    requires mid == "'" + (sep + "'")
    ensures "'" + (key + (mid + (val + "'"))) == Quoted(key) + (sep + Quoted(val))
  {
    Regroup("'" + key, "'", sep + Quoted(val));
    Regroup("'", key, "'" + (sep + Quoted(val)));
    Regroup("'", sep + "'", val + "'");
    Regroup(sep, "'", val + "'");
    Regroup("'", val, "'");
  }

  // ------------------------------------------- what is cut off around a value

  predicate AllQuotes(s: string) {
    forall k :: 0 <= k < |s| ==> s[k] == '"' || s[k] == '`' || s[k] == '\''
  }

  /** Neither end is a quotation mark. */
  predicate NoQuoteEnds(s: string) {
    s != [] ==> s[0] !in {'"', '`', '\''} && s[|s| - 1] !in {'"', '`', '\''}
  }

  /** The text is the core with quotation marks around it and blanks around these. */
  ghost predicate Wraps(text: string, a: string, q: string, core: string, r: string, b: string) {
    && text == a + (q + core + r) + b
    && All(a, IsSpace) && All(b, IsSpace) && Edges(q + core + r, IsSpace)
    && AllQuotes(q) && AllQuotes(r) && NoQuoteEnds(core)
  }

  ghost predicate Strips(text: string, core: string) {
    exists a, q, r, b :: Wraps(text, a, q, core, r, b)
  }

  /** Stripping takes off the blanks around a text, then the quotation marks, and no more. */
  lemma StrippedIs(text: string, core: string)
    ensures Stripped(text) == core <==> Strips(text, core)
  {
    if a, q, r, b :| Wraps(text, a, q, core, r, b) {
      TrimOf(a, q + core + r, b, IsSpace);
      TrimOf(q, core, r, IsQuote);
    }
    if Stripped(text) == core {
      var a, b := TrimSplits(text, IsSpace);
      var q, r := TrimSplits(TrimSpace(text), IsQuote);
      assert Wraps(text, a, q, core, r, b);
    }
  }

  /** The text is the core with blanks around it. */
  ghost predicate Trims(text: string, core: string) {
    exists a, b :: text == a + core + b && All(a, IsSpace) && All(b, IsSpace) && Edges(core, IsSpace)
  }

  lemma TrimmedIs(text: string, core: string)
    ensures TrimSpace(text) == core <==> Trims(text, core)
  {
    if a, b :| text == a + core + b && All(a, IsSpace) && All(b, IsSpace) && Edges(core, IsSpace) {
      TrimOf(a, core, b, IsSpace);
    }
    if TrimSpace(text) == core {
      var a, b := TrimSplits(text, IsSpace);
      assert text == a + core + b;
    }
  }

  /** An identifier is the stripped text with underscores for the blanks inside. */
  ghost predicate Names(text: string, id: string) {
    exists core :: Strips(text, core) && |id| == |core| && SameButBlanks(core, id)
  }

  predicate SameButBlanks(core: string, id: string)
    requires |id| == |core|
  {
    forall k :: 0 <= k < |core| ==> id[k] == if core[k] == ' ' then '_' else core[k]
  }

  lemma SanitizedIs(text: string, id: string)
    ensures SanitizeSqlIdentifier(text) == id <==> Names(text, id)
  {
    StrippedIs(text, Stripped(text));
    if core :| Strips(text, core) && |id| == |core| && SameButBlanks(core, id) {
      StrippedIs(text, core);
      assert Underscored(core) == id;
    }
    if SanitizeSqlIdentifier(text) == id {
      assert SameButBlanks(Stripped(text), id);
    }
  }

  /** A plain key between blanks names itself. */
  lemma PlainNames(a: string, key: string, b: string)
    requires All(a, IsSpace) && All(b, IsSpace) && Edges(key, IsSpace) && NoQuoteEnds(key) && Lacks(key, ' ')
    ensures Names(a + key + b, key)
  {
    assert [] + key + [] == key;
    assert Wraps(a + key + b, a, [], key, [], b);
  }

  /** A double-quoted value between blanks is stripped to itself, blanks inside included. */
  lemma QuotedStrips(a: string, val: string, b: string)
    requires All(a, IsSpace) && All(b, IsSpace) && NoQuoteEnds(val)
    ensures Strips(a + ("\"" + val + "\"") + b, val)
  {
    assert Wraps(a + ("\"" + val + "\"") + b, a, "\"", val, "\"", b);
  }
}
