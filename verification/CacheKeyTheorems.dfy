/** For log and trace queries the cache key tells all fields of a request apart: the key
    is taken apart from its end, where no part can be mistaken for another, and the
    query, which may hold bars, is what is left in the middle. */
module CacheKeyTheorems {
  import opened GoStrings
  import opened Timestamps
  import opened Durations
  import opened CacheKey

  // ------------------------------------------------------- cutting at bars

  lemma BarsAfter(s: string, k: nat, j: nat)
    requires k < |s| && Lacks(s[k + 1..], '|') && j < |s| && s[j] == '|'
    ensures j <= k
  {
    assert forall m :: k < m < |s| ==> s[m] == s[k + 1..][m - k - 1];
  }

  lemma BarsBefore(s: string, k: nat, j: nat)
    requires k < |s| && Lacks(s[..k], '|') && j < |s| && s[j] == '|'
    ensures k <= j
  {
    assert forall m :: 0 <= m < k ==> s[m] == s[..k][m];
  }

  lemma AtBar(a: string, b: string)
    ensures var s := a + ("|" + b); |a| < |s| && s[|a|] == '|' && s[..|a|] == a && s[|a| + 1..] == b
  {
  }

  /** Cut at the last bar. */
  lemma LastBar(a: string, b: string, c: string, d: string)
    requires a + ("|" + b) == c + ("|" + d) && Lacks(b, '|') && Lacks(d, '|')
    ensures a == c && b == d
  {
    AtBar(a, b);
    AtBar(c, d);
    BarsAfter(a + ("|" + b), |a|, |c|);
    BarsAfter(c + ("|" + d), |c|, |a|);
  }

  /** Cut at the first bar. */
  lemma FirstBar(a: string, b: string, c: string, d: string)
    requires a + ("|" + b) == c + ("|" + d) && Lacks(a, '|') && Lacks(c, '|')
    ensures a == c && b == d
  {
    AtBar(a, b);
    AtBar(c, d);
    BarsBefore(a + ("|" + b), |a|, |c|);
    BarsBefore(c + ("|" + d), |c|, |a|);
  }

  /** One tenant ends with a bar and the other. */
  predicate EndsWithTenant(long: string, short: string) {
    |long| > |short| && long[|long| - |short|..] == short && long[|long| - |short| - 1] == '|'
  }

  predicate Confusable(t: string, u: string) {
    EndsWithTenant(t, u) || EndsWithTenant(u, t)
  }

  /** Query and tenant behind each other are ambiguous for these tenants only. */
  lemma QueryAndTenant(q: string, t: string, p: string, u: string)
    requires q + ("|" + t) == p + ("|" + u) && t != u
    ensures Confusable(t, u)
  {
    var s := q + ("|" + t);
    assert s[|q|] == '|' && s[|p|] == '|';
    assert s[|q| + 1..] == t && s[|p| + 1..] == u;
    if |t| < |u| {
      TenantBehind(s, p, u, |q|);
    } else {
      TenantBehind(s, q, t, |p|);
    }
  }

  lemma TenantBehind(s: string, p: string, u: string, k: nat)
    requires s == p + ("|" + u) && |p| < k < |s| && s[k] == '|'
    ensures EndsWithTenant(u, s[k + 1..])
  {
    var short := s[k + 1..];
    assert u[|u| - |short|..] == short;
    assert u[|u| - |short| - 1] == s[k];
  }

  // --------------------------------------------------------- the key's parts

  lemma BarFree(s: string)
    requires All(s, IsDurationChar)
    ensures Lacks(s, '|')
  {
  }

  predicate HasTimes(r: Request) {
    !r.start.IsZero() && !r.end.IsZero()
  }

  lemma TimesOf(r: Request, tenant: string)
    requires HasTimes(r) && Accepted(r, tenant)
    ensures WithTimes(r, tenant) == (Front(r, tenant) + ("|" + Format(r.start))) + ("|" + Format(r.end))
    ensures Lacks(Format(r.start), '|') && Lacks(Format(r.end), '|')
    ensures WithTimes(r, tenant) != [] && WithTimes(r, tenant)[|WithTimes(r, tenant)| - 1] == 'Z'
  {
    FormatChars(r.start);
    FormatChars(r.end);
  }

  lemma TimesApart(r: Request, t: string, s: Request, u: string)
    requires HasTimes(r) && Accepted(r, t) && HasTimes(s) && Accepted(s, u)
    requires WithTimes(r, t) == WithTimes(s, u)
    ensures Front(r, t) == Front(s, u) && r.start == s.start && r.end == s.end
  {
    TimesOf(r, t);
    TimesOf(s, u);
    LastBar(Front(r, t) + ("|" + Format(r.start)), Format(r.end), Front(s, u) + ("|" + Format(s.start)), Format(s.end));
    LastBar(Front(r, t), Format(r.start), Front(s, u), Format(s.start));
    FormatInjective(r.start, s.start);
    FormatInjective(r.end, s.end);
  }

  lemma StepEnd(r: Request, tenant: string)
    requires HasTimes(r) && Accepted(r, tenant)
    ensures var k := WithStep(r, tenant);
            k != [] && if r.step == [] then k[|k| - 1] == 'Z' else EndsDuration(k[|k| - 1])
    ensures Lacks(r.step, '|')
    ensures WithStep(r, tenant) == if r.step == [] then WithTimes(r, tenant) else WithTimes(r, tenant) + ("|" + r.step)
  {
    TimesOf(r, tenant);
    if r.step == [] {
      assert WithTimes(r, tenant) + [] == WithTimes(r, tenant);
    } else {
      DurationChars(r.step);
      BarFree(r.step);
      var k := WithTimes(r, tenant) + ("|" + r.step);
      assert k[|k| - 1] == r.step[|r.step| - 1];
    }
  }

  lemma StepApart(r: Request, t: string, s: Request, u: string)
    requires HasTimes(r) && Accepted(r, t) && HasTimes(s) && Accepted(s, u)
    requires WithStep(r, t) == WithStep(s, u)
    ensures WithTimes(r, t) == WithTimes(s, u) && r.step == s.step
  {
    StepEnd(r, t);
    StepEnd(s, u);
    if r.step != [] { LastBar(WithTimes(r, t), r.step, WithTimes(s, u), s.step); }
  }

  lemma LastOf(a: string, b: string)
    requires b != []
    ensures (a + ("|" + b))[|a + ("|" + b)| - 1] == b[|b| - 1]
  {
  }

  /** A key with or without its last part, which ends like no other. */
  ghost predicate Tailed(k: string, a: string, on: bool) {
    && k != [] && (on <==> k[|k| - 1] == 'e')
    && k == if on then a + ("|" + NORMALIZED) else a
  }

  lemma KeyEnd(r: Request, tenant: string)
    requires HasTimes(r) && Accepted(r, tenant)
    ensures Tailed(Key(r, tenant), WithStep(r, tenant), r.normalize)
  {
    StepEnd(r, tenant);
    LastOf(WithStep(r, tenant), NORMALIZED);
    assert WithStep(r, tenant) + [] == WithStep(r, tenant);
  }

  lemma TailApart(k: string, a: string, x: bool, b: string, y: bool)
    requires Tailed(k, a, x) && Tailed(k, b, y)
    ensures x == y && a == b
  {
    if x { LastBar(a, NORMALIZED, b, NORMALIZED); }
  }

  lemma NormalizeApart(r: Request, t: string, s: Request, u: string)
    requires HasTimes(r) && Accepted(r, t) && HasTimes(s) && Accepted(s, u) && Key(r, t) == Key(s, u)
    ensures WithStep(r, t) == WithStep(s, u) && r.normalize == s.normalize
  {
    KeyEnd(r, t);
    KeyEnd(s, u);
    TailApart(Key(r, t), WithStep(r, t), r.normalize, WithStep(s, u), s.normalize);
  }

  lemma LowerLiteral(lang: string)
    requires lang == "promql" || lang == "logql" || lang == "traceql"
    ensures AsciiLower(lang) == lang && Lacks(lang, '|')
  {
    assert forall k :: 0 <= k < |lang| ==> 'a' <= lang[k] <= 'z';
  }

  lemma LowerLanguage(r: Request, tenant: string)
    requires Accepted(r, tenant)
    ensures AsciiLower(r.lang) == r.lang && Lacks(r.lang, '|')
  {
    LowerLiteral(r.lang);
  }

  lemma FrontApart(r: Request, t: string, s: Request, u: string)
    requires Accepted(r, t) && Accepted(s, u) && Front(r, t) == Front(s, u)
    ensures r.lang == s.lang && Query(r, t) == Query(s, u)
  {
    LowerLanguage(r, t);
    LowerLanguage(s, u);
    FirstBar(r.lang, Query(r, t), s.lang, Query(s, u));
  }

  lemma SameLanguage(r: Request, t: string, s: Request, u: string)
    requires Accepted(r, t) && Accepted(s, u) && Key(r, t) == Key(s, u)
    ensures r.lang == s.lang
  {
    LowerLanguage(r, t);
    LowerLanguage(s, u);
    var x := AfterLanguage(r, t);
    var y := AfterLanguage(s, u);
    FirstBar(r.lang, x, s.lang, y);
  }

  lemma Extend(lang: string, x: string, y: string)
    ensures (lang + ("|" + x)) + y == lang + ("|" + (x + y))
  {
    Regroup(lang, "|" + x, y);
    Regroup("|", x, y);
  }

  lemma AfterLanguage(r: Request, tenant: string) returns (x: string)
    requires Accepted(r, tenant)
    ensures Key(r, tenant) == r.lang + ("|" + x)
  {
    LowerLanguage(r, tenant);
    var step, normalize := if r.step != [] then "|" + r.step else [], if r.normalize then "|" + NORMALIZED else [];
    x := Query(r, tenant);
    Extend(r.lang, x, TimePart(r.start));
    x := x + TimePart(r.start);
    Extend(r.lang, x, TimePart(r.end));
    x := x + TimePart(r.end);
    Extend(r.lang, x, step);
    x := x + step;
    Extend(r.lang, x, normalize);
    x := x + normalize;
  }

  // ------------------------------------------------------------ injectivity

  /** The same request, but for where its query ends and its tenant starts. */
  lemma KeyApart(r: Request, t: string, s: Request, u: string)
    requires HasTimes(r) && HasTimes(s) && Accepted(r, t) && Accepted(s, u) && Key(r, t) == Key(s, u)
    ensures r.(query := "") == s.(query := "") && Query(r, t) == Query(s, u)
  {
    SameLanguage(r, t, s, u);
    NormalizeApart(r, t, s, u);
    StepApart(r, t, s, u);
    TimesApart(r, t, s, u);
    FrontApart(r, t, s, u);
  }

  /** Log and trace requests always have both times. */
  lemma RangeHasTimes(r: Request, t: string, s: Request, u: string)
    requires IsRange(r) && Accepted(r, t) && Accepted(s, u) && Key(r, t) == Key(s, u)
    ensures IsRange(s) && HasTimes(r) && HasTimes(s)
  {
    SameLanguage(r, t, s, u);
  }

  /** A request with both times shares its key with no other accepted one that has both,
      and a log or trace request with no other accepted one at all, of any language, unless
      one tenant's name ends with a bar and the other's. */
  lemma KeyIsInjective(r: Request, t: string, s: Request, u: string)
    requires (HasTimes(r) && HasTimes(s)) || IsRange(r)
    requires Accepted(r, t) && Accepted(s, u) && Key(r, t) == Key(s, u)
    requires !Confusable(t, u)
    ensures r == s && t == u
  {
    if IsRange(r) { RangeHasTimes(r, t, s, u); }
    KeyApart(r, t, s, u);
    if t != u { QueryAndTenant(r.query, t, s.query, u); }
    LastQuery(r.query, s.query, t);
  }

  lemma LastQuery(q: string, p: string, t: string)
    ensures q + ("|" + t) == p + ("|" + t) ==> q == p
  {
    assert (q + ("|" + t))[..|q|] == q && (p + ("|" + t))[..|p|] == p;
  }

  lemma SameQuerySameKey(r: Request, t: string, s: Request, u: string)
    requires s == r.(query := s.query) && Query(s, u) == Query(r, t)
    ensures Key(s, u) == Key(r, t)
  {
  }

  lemma StillAccepted(r: Request, t: string, s: Request, u: string)
    requires Accepted(r, t) && s == r.(query := s.query) && s.query != [] && u != []
    ensures Accepted(s, u)
  {
  }

  lemma SuffixQuery(q: string, x: string, t: string, u: string)
    requires EndsWithTenant(t, u) && x == t[..|t| - |u| - 1]
    ensures (q + ("|" + x)) + ("|" + u) == q + ("|" + t)
  {
    assert t == x + ("|" + u);
    Regroup(q, "|" + x, "|" + u);
    Regroup("|", x, "|" + u);
  }

  /** ... and for such tenants two different requests do share a key: whatever the one
      asks, the other can ask. */
  lemma ConfusableTenantsCollide(r: Request, t: string, u: string)
    requires IsRange(r) && Accepted(r, t) && u != [] && EndsWithTenant(t, u)
    ensures var s := r.(query := r.query + ("|" + t[..|t| - |u| - 1]));
            IsRange(s) && Accepted(s, u) && s != r && Key(s, u) == Key(r, t)
  {
    var x := t[..|t| - |u| - 1];
    var s := r.(query := r.query + ("|" + x));
    assert |s.query| > |r.query|;
    SuffixQuery(r.query, x, t, u);
    StillAccepted(r, t, s, u);
    SameQuerySameKey(r, t, s, u);
  }

  /** Some request of tenant t shares its key with a different one of tenant u. */
  ghost predicate Collide(t: string, u: string) {
    exists r, s :: IsRange(r) && Accepted(r, t) && Accepted(s, u) && r != s && Key(r, t) == Key(s, u)
  }

  const SAMPLE := Request("logql", "a", Instant(2024, 1, 1, 0, 0, 0, 0), Instant(2024, 1, 2, 0, 0, 0, 0), "", false)

  lemma SampleAccepted(t: string)
    requires t != []
    ensures IsRange(SAMPLE) && Accepted(SAMPLE, t)
  {
  }

  lemma CollideBySuffix(t: string, u: string)
    requires t != [] && u != [] && EndsWithTenant(t, u)
    ensures Collide(t, u) && Collide(u, t)
  {
    SampleAccepted(t);
    ConfusableTenantsCollide(SAMPLE, t, u);
    var x := t[..|t| - |u| - 1];
    var s := SAMPLE.(query := SAMPLE.query + ("|" + x));
    CollideBy(SAMPLE, t, s, u);
  }

  lemma CollideBy(r: Request, t: string, s: Request, u: string)
    requires IsRange(r) && Accepted(r, t) && IsRange(s) && Accepted(s, u) && r != s && Key(r, t) == Key(s, u)
    ensures Collide(t, u) && Collide(u, t)
  {
  }

  lemma CollisionConfuses(t: string, u: string)
    requires t != u && Collide(t, u)
    ensures Confusable(t, u)
  {
    var r, s :| IsRange(r) && Accepted(r, t) && Accepted(s, u) && r != s && Key(r, t) == Key(s, u);
    RangeHasTimes(r, t, s, u);
    KeyApart(r, t, s, u);
    QueryAndTenant(r.query, t, s.query, u);
  }

  /** For two different tenants keys collide if and only if one name ends with a bar and
      the other; in particular never when no name holds a bar. */
  lemma CollideExactlyWhenConfusable(t: string, u: string)
    requires t != [] && u != [] && t != u
    ensures Collide(t, u) <==> Confusable(t, u)
    ensures Lacks(t, '|') && Lacks(u, '|') ==> !Confusable(t, u)
  {
    if EndsWithTenant(t, u) {
      CollideBySuffix(t, u);
    } else if EndsWithTenant(u, t) {
      CollideBySuffix(u, t);
    } else if Collide(t, u) {
      CollisionConfuses(t, u);
    }
  }
}
