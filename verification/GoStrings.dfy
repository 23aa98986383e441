/** The functions of Go's strings package that the query translators use, on strings
    of Unicode characters, with what each of them means. */
module GoStrings {
  // ------------------------------------------------------------------ trimming

  /** unicode.IsSpace. */
  predicate IsSpace(c: char) {
    || c in {'\t', '\n', '\U{B}', '\U{C}', '\r', ' ', '\U{85}', '\U{A0}', '\U{1680}'}
    || '\U{2000}' <= c <= '\U{200A}'
    || c in {'\U{2028}', '\U{2029}', '\U{202F}', '\U{205F}', '\U{3000}'}
  }

  /** The cutset of the translators. */
  predicate IsQuote(c: char) {
    c == '"' || c == '`' || c == '\''
  }

  predicate All(s: string, p: char -> bool) {
    forall k :: 0 <= k < |s| ==> p(s[k])
  }

  /** Neither end of the string is in the cutset. */
  predicate Edges(s: string, p: char -> bool) {
    s != [] ==> !p(s[0]) && !p(s[|s| - 1])
  }

  function TrimLeft(s: string, p: char -> bool): string {
    if s != [] && p(s[0]) then TrimLeft(s[1..], p) else s
  }

  function TrimRight(s: string, p: char -> bool): string {
    if s != [] && p(s[|s| - 1]) then TrimRight(s[..|s| - 1], p) else s
  }

  function Trim(s: string, p: char -> bool): string {
    TrimRight(TrimLeft(s, p), p)
  }

  function TrimSpace(s: string): string {
    Trim(s, IsSpace)
  }

  function TrimQuotes(s: string): string {
    Trim(s, IsQuote)
  }

  lemma {:induction false} TrimLeftOf(pre: string, core: string, p: char -> bool)
    requires All(pre, p) && (core != [] ==> !p(core[0]))
    ensures TrimLeft(pre + core, p) == core
  {
    if pre == [] {
      assert pre + core == core;
    } else {
      assert (pre + core)[1..] == pre[1..] + core;
      TrimLeftOf(pre[1..], core, p);
    }
  }

  lemma {:induction false} TrimRightOf(core: string, post: string, p: char -> bool)
    requires All(post, p) && (core != [] ==> !p(core[|core| - 1]))
    ensures TrimRight(core + post, p) == core
  {
    if post == [] {
      assert core + post == core;
    } else {
      var s := core + post;
      assert s[..|s| - 1] == core + post[..|post| - 1];
      TrimRightOf(core, post[..|post| - 1], p);
    }
  }

  /** Trim removes exactly the cutset from both ends: whatever is left between two
      runs of it, with clean edges, is the result. */
  lemma TrimOf(pre: string, core: string, post: string, p: char -> bool)
    requires All(pre, p) && All(post, p) && Edges(core, p)
    ensures Trim(pre + core + post, p) == core
  {
    if core == [] {
      assert pre + core + post == (pre + post) + [];
      TrimLeftOf(pre + post, [], p);
    } else {
      assert pre + core + post == pre + (core + post);
      TrimLeftOf(pre, core + post, p);
      TrimRightOf(core, post, p);
    }
  }

  lemma TrimFixed(s: string, p: char -> bool)
    requires Edges(s, p)
    ensures Trim(s, p) == s
  {
    assert [] + s + [] == s;
    TrimOf([], s, [], p);
  }

  lemma {:induction false} TrimLeftSplits(s: string, p: char -> bool) returns (pre: string)
    ensures s == pre + TrimLeft(s, p) && All(pre, p)
    ensures TrimLeft(s, p) != [] ==> !p(TrimLeft(s, p)[0])
  {
    if s != [] && p(s[0]) {
      var q := TrimLeftSplits(s[1..], p);
      pre := [s[0]] + q;
      assert s == [s[0]] + s[1..];
    } else {
      pre := [];
    }
  }

  lemma {:induction false} TrimRightSplits(s: string, p: char -> bool) returns (post: string)
    ensures s == TrimRight(s, p) + post && All(post, p)
    ensures TrimRight(s, p) != [] ==> !p(TrimRight(s, p)[|TrimRight(s, p)| - 1])
  {
    if s != [] && p(s[|s| - 1]) {
      var q := TrimRightSplits(s[..|s| - 1], p);
      post := q + [s[|s| - 1]];
      assert s == s[..|s| - 1] + [s[|s| - 1]];
    } else {
      post := [];
    }
  }

  /** What is cut off is cutset, and what is left has clean edges. */
  lemma TrimSplits(s: string, p: char -> bool) returns (pre: string, post: string)
    ensures s == pre + Trim(s, p) + post && All(pre, p) && All(post, p) && Edges(Trim(s, p), p)
  {
    pre := TrimLeftSplits(s, p);
    var left := TrimLeft(s, p);
    post := TrimRightSplits(left, p);
    assert Trim(s, p) != [] ==> left[0] == Trim(s, p)[0];
  }

  lemma DropPrefix(a: string, b: string)
    ensures HasPrefix(a + b, a) && (a + b)[|a|..] == b
  {
  }

  lemma Regroup(a: string, b: string, c: string)
    ensures (a + b) + c == a + (b + c)
  {
  }

  // ---------------------------------------------------------------- searching

  predicate At(s: string, sub: string, k: int) {
    0 <= k && k + |sub| <= |s| && s[k..k + |sub|] == sub
  }

  predicate HasPrefix(s: string, t: string) {
    t <= s
  }

  /** strings.Index: the first occurrence, or -1. */
  function Index(s: string, sub: string): (r: int)
    ensures r == -1 || 0 <= r <= r + |sub| <= |s|
  {
    if HasPrefix(s, sub) then 0
    else if s == [] then -1
    else
      var k := Index(s[1..], sub);
      if k == -1 then -1 else k + 1
  }

  lemma {:induction false} IndexFirst(s: string, sub: string)
    ensures var r := Index(s, sub); r == -1 || At(s, sub, r)
    ensures forall j :: At(s, sub, j) ==> 0 <= Index(s, sub) <= j
  {
    if HasPrefix(s, sub) {
      assert s[0..|sub|] == s[..|sub|];
    } else if s != [] {
      IndexFirst(s[1..], sub);
      var k := Index(s[1..], sub);
      if k != -1 { assert s[1..][k..k + |sub|] == s[k + 1..k + 1 + |sub|]; }
      assert !At(s, sub, 0);
      forall j | At(s, sub, j) && j != 0 ensures At(s[1..], sub, j - 1) {
        assert s[1..][j - 1..j - 1 + |sub|] == s[j..j + |sub|];
      }
    }
  }

  predicate Contains(s: string, sub: string) {
    Index(s, sub) != -1
  }

  lemma IndexIs(s: string, sub: string, k: int)
    requires At(s, sub, k) && forall j :: 0 <= j < k ==> !At(s, sub, j)
    ensures Index(s, sub) == k
  {
    IndexFirst(s, sub);
  }

  lemma NotFound(s: string, sub: string)
    requires forall j :: !At(s, sub, j)
    ensures Index(s, sub) == -1 && !Contains(s, sub)
  {
    IndexFirst(s, sub);
  }

  /** The first occurrence of a text is where its first character first occurs. */
  lemma IndexAfter(before: string, sub: string, rest: string)
    requires sub != [] && sub[0] !in before
    ensures Index(before + sub + rest, sub) == |before|
  {
    var s := before + sub + rest;
    assert s[|before|..|before| + |sub|] == sub;
    forall j | 0 <= j < |before| ensures !At(s, sub, j) {
      assert j + |sub| <= |s| ==> s[j..j + |sub|][0] == before[j];
    }
    IndexIs(s, sub, |before|);
  }

  lemma AtChar(s: string, c: char, k: nat)
    requires k < |s|
    ensures At(s, [c], k) <==> s[k] == c
  {
    assert s[k..k + 1] == [s[k]];
  }

  predicate Lacks(s: string, c: char) {
    forall k :: 0 <= k < |s| ==> s[k] != c
  }

  lemma CharAfter(before: string, c: char, rest: string)
    requires Lacks(before, c)
    ensures Index(before + ([c] + rest), [c]) == |before|
  {
    Regroup(before, [c], rest);
    IndexAfter(before, [c], rest);
  }

  /** The index of a character. */
  lemma IndexChar(s: string, c: char)
    ensures var r := Index(s, [c]); if r == -1 then Lacks(s, c) else 0 <= r < |s| && s[r] == c && Lacks(s[..r], c)
  {
    IndexFirst(s, [c]);
    forall k | 0 <= k < |s| ensures At(s, [c], k) <==> s[k] == c {
      AtChar(s, c, k);
    }
  }

  // ---------------------------------------------------------------- splitting

  /** strings.SplitN(s, sep, 2) for a separator that occurs. */
  function Cut(s: string, sep: string): (kv: (string, string))
    requires Contains(s, sep)
    ensures |kv.0| + |sep| + |kv.1| == |s|
  {
    var k := Index(s, sep);
    (s[..k], s[k + |sep|..])
  }

  /** Cut leaves out the first separator and nothing else. */
  lemma CutFirst(s: string, sep: string)
    requires sep != [] && Contains(s, sep)
    ensures var (k, v) := Cut(s, sep); s == k + sep + v && !Contains(k, sep)
  {
    IndexFirst(s, sep);
    var r := Index(s, sep);
    assert s == s[..r] + s[r..r + |sep|] + s[r + |sep|..];
    forall j | At(s[..r], sep, j) ensures At(s, sep, j) {
      assert s[j..j + |sep|] == s[..r][j..j + |sep|];
    }
    if Contains(s[..r], sep) { IndexFirst(s[..r], sep); }
  }

  lemma CutAt(before: string, sep: string, rest: string)
    requires sep != [] && sep[0] !in before
    ensures Contains(before + sep + rest, sep) && Cut(before + sep + rest, sep) == (before, rest)
  {
    IndexAfter(before, sep, rest);
    var s := before + sep + rest;
    assert s[..|before|] == before && s[|before| + |sep|..] == rest;
  }

  /** strings.Split for a non-empty separator. */
  function Split(s: string, sep: string): (parts: seq<string>)
    requires sep != []
    ensures parts != []
    decreases |s|
  {
    if Contains(s, sep) then
      var kv := Cut(s, sep);
      [kv.0] + Split(kv.1, sep)
    else [s]
  }

  /** strings.Join. */
  function Join(parts: seq<string>, sep: string): string {
    if parts == [] then [] else if |parts| == 1 then parts[0] else parts[0] + sep + Join(parts[1..], sep)
  }

  lemma FirstCharIn(s: string, sub: string)
    requires sub != [] && Contains(s, sub)
    ensures sub[0] in s
  {
    IndexFirst(s, sub);
    var k := Index(s, sub);
    assert s[k] == s[k..k + |sub|][0];
  }

  /** Split cuts at every separator, and Join puts them back. */
  lemma {:induction false} JoinSplit(s: string, sep: string)
    requires sep != []
    ensures Join(Split(s, sep), sep) == s
    ensures forall k :: 0 <= k < |Split(s, sep)| ==> !Contains(Split(s, sep)[k], sep)
    decreases |s|
  {
    if Contains(s, sep) {
      var kv := Cut(s, sep);
      JoinSplit(kv.1, sep);
      assert Split(s, sep)[1..] == Split(kv.1, sep);
      CutFirst(s, sep);
    }
  }

  /** Parts without the first character of the separator survive Join and Split. */
  lemma {:induction false} SplitJoin(parts: seq<string>, sep: string)
    requires sep != [] && parts != []
    requires forall k :: 0 <= k < |parts| ==> sep[0] !in parts[k]
    ensures Split(Join(parts, sep), sep) == parts
  {
    if |parts| == 1 {
      if Contains(parts[0], sep) { FirstCharIn(parts[0], sep); }
    } else {
      CutAt(parts[0], sep, Join(parts[1..], sep));
      SplitJoin(parts[1..], sep);
    }
  }

  /** strings.ReplaceAll(s, " ", "_"). */
  function Underscored(s: string): (r: string)
    ensures |r| == |s| && forall k :: 0 <= k < |s| ==> r[k] == if s[k] == ' ' then '_' else s[k]
  {
    if s == [] then [] else [if s[0] == ' ' then '_' else s[0]] + Underscored(s[1..])
  }

  function LowerChar(c: char): char {
    if 'A' <= c <= 'Z' then c + ' ' else c
  }

  /** strings.ToLower on ASCII text. */
  function AsciiLower(s: string): (r: string)
    ensures |r| == |s| && forall k :: 0 <= k < |s| ==> r[k] == LowerChar(s[k])
  {
    if s == [] then [] else [LowerChar(s[0])] + AsciiLower(s[1..])
  }
}
