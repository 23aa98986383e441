/** The pipeline expression of the log translator, \|([=!~]{1,2})\s*"([^"]*)", and its
    FindAll: one matcher that runs over the text, proved against what the expression
    says. */
module LogPipeline {
  import opened Wrappers
  import opened GoStrings

  /** The two groups of a match. */
  datatype Hit = Hit(op: string, text: string)

  predicate IsOpChar(c: char) {
    c == '=' || c == '!' || c == '~'
  }

  /** \s of Go's regexp. */
  predicate IsBlank(c: char) {
    c == '\t' || c == '\n' || c == '\U{C}' || c == '\r' || c == ' '
  }

  /** The part of a match after its operator. */
  function Tail(h: Hit, blanks: string, rest: string): string {
    blanks + ("\"" + (h.text + ("\"" + rest)))
  }

  /** A text that starts with a match. */
  function Matched(h: Hit, blanks: string, rest: string): string {
    "|" + (h.op + Tail(h, blanks, rest))
  }

  predicate Groups(h: Hit, blanks: string) {
    1 <= |h.op| <= 2 && All(h.op, IsOpChar) && All(blanks, IsBlank) && Lacks(h.text, '"')
  }

  predicate MatchWith(s: string, h: Hit, n: nat, blanks: string, rest: string) {
    Groups(h, blanks) && s == Matched(h, blanks, rest) && |s| == n + |rest|
  }

  /** The first n characters of s are a match with these groups. */
  ghost predicate IsMatch(s: string, h: Hit, n: nat) {
    exists blanks, rest :: MatchWith(s, h, n, blanks, rest)
  }

  function Count(s: string, p: char -> bool, max: nat): (n: nat)
    ensures n <= |s| && n <= max && forall k :: 0 <= k < n ==> p(s[k])
    ensures n < |s| && n < max ==> !p(s[n])
  {
    if s != [] && max != 0 && p(s[0]) then 1 + Count(s[1..], p, max - 1) else 0
  }

  /** Blanks and a quoted text: the text, and the length of it all. */
  function QuotedHere(t: string): (r: Option<(string, nat)>)
    ensures r.Some? ==> r.value.1 <= |t|
  {
    var b := Count(t, IsBlank, |t|);
    if b == |t| || t[b] != '"' then None
    else
      var u := t[b + 1..];
      var e := Index(u, ['"']);
      if e == -1 then None else Some((u[..e], b + e + 2))
  }

  /** An operator and then a quoted text, with the length of it all. */
  function GroupsHere(u: string): (r: Option<(Hit, nat)>)
    ensures r.Some? ==> r.value.1 <= |u|
  {
    var n := Count(u, IsOpChar, 2);
    if n == 0 then None
    else
      match QuotedHere(u[n..])
      case None => None
      case Some((text, m)) => Some((Hit(u[..n], text), n + m))
  }

  /** The match at the start of s, with its length. */
  function MatchHere(s: string): (r: Option<(Hit, nat)>)
    ensures r.Some? ==> 0 < r.value.1 <= |s|
  {
    if !HasPrefix(s, "|") then None
    else
      match GroupsHere(s[1..])
      case None => None
      case Some((h, n)) => Some((h, 1 + n))
  }

  /** All matches, leftmost first and without overlap. */
  function FindAll(s: string): seq<Hit>
    decreases |s|
  {
    if s == [] then []
    else
      match MatchHere(s)
      case Some((h, n)) => [h] + FindAll(s[n..])
      case None => FindAll(s[1..])
  }

  lemma CountOf(run: string, rest: string, p: char -> bool, max: nat)
    requires All(run, p) && |run| <= max && (rest != [] && |run| < max ==> !p(rest[0]))
    ensures Count(run + rest, p, max) == |run|
  {
    var s, n := run + rest, Count(run + rest, p, max);
    assert forall k :: 0 <= k < |run| ==> s[k] == run[k];
    assert |s| > |run| ==> s[|run|] == rest[0];
  }

  lemma QuotedIsFound(blanks: string, text: string, rest: string)
    requires All(blanks, IsBlank) && Lacks(text, '"')
    ensures QuotedHere(blanks + ("\"" + (text + ("\"" + rest)))) == Some((text, |blanks| + |text| + 2))
  {
    var u := text + ("\"" + rest);
    var t := blanks + ("\"" + u);
    CountOf(blanks, "\"" + u, IsBlank, |t|);
    assert t[|blanks| + 1..] == u;
    CharAfter(text, '"', rest);
    assert t[|blanks| + 1..|blanks| + 1 + |text|] == text;
  }

  lemma OpIsFound(op: string, t: string)
    requires 1 <= |op| <= 2 && All(op, IsOpChar) && t != [] && !IsOpChar(t[0])
    ensures Count(op + t, IsOpChar, 2) == |op| && (op + t)[..|op|] == op && (op + t)[|op|..] == t
  {
    CountOf(op, t, IsOpChar, 2);
  }

  lemma TailStart(h: Hit, blanks: string, rest: string)
    requires Groups(h, blanks)
    ensures Tail(h, blanks, rest) != [] && !IsOpChar(Tail(h, blanks, rest)[0])
  {
    assert Tail(h, blanks, rest)[0] == if blanks == [] then '"' else blanks[0];
  }

  lemma GroupsAreFound(h: Hit, blanks: string, rest: string)
    requires Groups(h, blanks)
    ensures GroupsHere(h.op + Tail(h, blanks, rest)) == Some((h, |h.op| + |Tail(h, blanks, rest)| - |rest|))
  {
    TailStart(h, blanks, rest);
    OpIsFound(h.op, Tail(h, blanks, rest));
    QuotedIsFound(blanks, h.text, rest);
  }

  lemma AfterBar(u: string, h: Hit, n: nat)
    requires GroupsHere(u) == Some((h, n))
    ensures MatchHere("|" + u) == Some((h, 1 + n))
  {
    DropPrefix("|", u);
  }

  lemma MatchIsFound(s: string, h: Hit, n: nat, blanks: string, rest: string)
    requires MatchWith(s, h, n, blanks, rest)
    ensures MatchHere(s) == Some((h, n))
  {
    GroupsAreFound(h, blanks, rest);
    var u := h.op + Tail(h, blanks, rest);
    assert s == "|" + u && |u| == n - 1 + |rest|;
    AfterBar(u, h, n - 1);
  }

  lemma SplitAtQuote(u: string) returns (e: nat)
    requires Contains(u, ['"'])
    ensures Index(u, ['"']) == e < |u| && Lacks(u[..e], '"') && u == u[..e] + ("\"" + u[e + 1..])
  {
    IndexChar(u, '"');
    e := Index(u, ['"']);
  }

  lemma QuotedIsThere(t: string) returns (blanks: string)
    requires QuotedHere(t).Some?
    ensures var (text, m) := QuotedHere(t).value;
            All(blanks, IsBlank) && Lacks(text, '"') && t == blanks + ("\"" + (text + ("\"" + t[m..])))
  {
    var b := Count(t, IsBlank, |t|);
    blanks := t[..b];
    var e := SplitAtQuote(t[b + 1..]);
    Reassemble(t, b, e);
  }

  lemma Reassemble(t: string, b: nat, e: nat)
    requires b < |t| && t[b] == '"' && b + 1 + e < |t|
    requires t[b + 1..] == t[b + 1..][..e] + ("\"" + t[b + 1..][e + 1..])
    ensures t == t[..b] + ("\"" + (t[b + 1..][..e] + ("\"" + t[b + e + 2..])))
  {
    assert t[b + 1..][e + 1..] == t[b + e + 2..];
    assert t == t[..b] + ("\"" + t[b + 1..]);
  }

  lemma GroupsAreThere(u: string) returns (blanks: string, rest: string)
    requires GroupsHere(u).Some?
    ensures var (h, n) := GroupsHere(u).value;
            Groups(h, blanks) && u == h.op + Tail(h, blanks, rest) && |u| == n + |rest|
  {
    var (h, n) := GroupsHere(u).value;
    var t := u[|h.op|..];
    blanks := QuotedIsThere(t);
    rest := t[QuotedHere(t).value.1..];
    assert u == h.op + t;
  }

  lemma FoundIsMatch(s: string)
    requires MatchHere(s).Some?
    ensures IsMatch(s, MatchHere(s).value.0, MatchHere(s).value.1)
  {
    var blanks, rest := GroupsAreThere(s[1..]);
    assert s == "|" + s[1..];
    assert MatchWith(s, MatchHere(s).value.0, MatchHere(s).value.1, blanks, rest);
  }

  /** The matcher finds a match exactly when the expression has one there, with the
      groups that the expression gives it; so there is never more than one. */
  lemma MatcherIsTheExpression(s: string, h: Hit, n: nat)
    ensures MatchHere(s) == Some((h, n)) <==> IsMatch(s, h, n)
  {
    if IsMatch(s, h, n) {
      var blanks, rest :| MatchWith(s, h, n, blanks, rest);
      MatchIsFound(s, h, n, blanks, rest);
    } else if MatchHere(s) == Some((h, n)) {
      FoundIsMatch(s);
    }
  }

  lemma AfterMatch(s: string, h: Hit, n: nat, blanks: string, rest: string)
    requires MatchWith(s, h, n, blanks, rest)
    ensures n <= |s| && s[n..] == rest
  {
    Regroup("|", h.op, Tail(h, blanks, rest));
    assert n == |s| - |rest|;
  }

  /** A match in front of anything is found first, and the search goes on after it. */
  lemma FindNext(s: string, h: Hit, n: nat, blanks: string, rest: string)
    requires MatchWith(s, h, n, blanks, rest)
    ensures FindAll(s) == [h] + FindAll(rest)
  {
    MatchIsFound(s, h, n, blanks, rest);
    AfterMatch(s, h, n, blanks, rest);
  }

  lemma FindSkips(s: string)
    requires s != [] && s[0] != '|'
    ensures FindAll(s) == FindAll(s[1..])
  {
  }
}
