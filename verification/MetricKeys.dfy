/** Keys of metric requests, which may have both times, one of them or none, and what a
    cache hit means for them. */
module MetricKeys {
  import opened GoStrings
  import opened Timestamps
  import opened Durations
  import opened CacheKey
  import opened CacheKeyTheorems
  import opened QueryCache

  ghost predicate IsTime(s: string) {
    exists x: Instant :: x.Valid() && !x.IsZero() && Format(x) == s
  }

  /** A name without a bar that cannot be taken for one of the optional parts of a key. */
  ghost predicate PlainTenant(t: string) {
    t != [] && Lacks(t, '|') && t != NORMALIZED && !IsDuration(t) && !IsTime(t)
  }

  /** The same request, except that one has only a start and the other only an end, at
      the same instant. */
  predicate Swapped(r: Request, s: Request) {
    && s == r.(start := s.start, end := s.end) && s.start == r.end && s.end == r.start
    && (r.start.IsZero() || r.end.IsZero())
  }

  // ------------------------------------------------------- the last part

  /** What stands behind the last bar of a key without its step and flag. */
  function LastOfTimes(r: Request, t: string): string {
    if !r.end.IsZero() then Format(r.end) else if !r.start.IsZero() then Format(r.start) else t
  }

  function BeforeTimes(r: Request, t: string): string {
    if !r.end.IsZero() then Front(r, t) + TimePart(r.start)
    else if !r.start.IsZero() then Front(r, t)
    else AsciiLower(r.lang) + ("|" + r.query)
  }

  lemma NothingBehind(a: string)
    ensures a + [] == a
  {
  }

  lemma FormatBarFree(x: Instant)
    ensures Lacks(Format(x), '|') && Format(x) != [] && Format(x)[|Format(x)| - 1] == 'Z'
  {
    FormatChars(x);
  }

  lemma TimesEnd(r: Request, t: string)
    requires Lacks(t, '|')
    ensures WithTimes(r, t) == BeforeTimes(r, t) + ("|" + LastOfTimes(r, t)) && Lacks(LastOfTimes(r, t), '|')
  {
    NothingBehind(Front(r, t) + TimePart(r.start));
    NothingBehind(Front(r, t));
    FormatBarFree(r.end);
    FormatBarFree(r.start);
    var lang := AsciiLower(r.lang);
    Regroup(lang, "|" + r.query, "|" + t);
    Regroup("|", r.query, "|" + t);
  }

  /** The optional parts end in letters of their own. */
  lemma LastOfTimesIs(r: Request, t: string)
    requires r.start.Valid() && r.end.Valid() && PlainTenant(t)
    ensures LastOfTimes(r, t) != NORMALIZED && !IsDuration(LastOfTimes(r, t))
    ensures r.start.IsZero() && r.end.IsZero() <==> !IsTime(LastOfTimes(r, t))
  {
    var p := LastOfTimes(r, t);
    if !(r.start.IsZero() && r.end.IsZero()) {
      var x := if !r.end.IsZero() then r.end else r.start;
      assert x.Valid() && !x.IsZero() && Format(x) == p;
      FormatBarFree(x);
      NoDuration(p);
      assert NORMALIZED[|NORMALIZED| - 1] == 'e';
    }
  }

  lemma NoDuration(p: string)
    requires p != [] && (p[|p| - 1] == 'Z' || p[|p| - 1] == 'e')
    ensures !IsDuration(p)
  {
    if IsDuration(p) { DurationChars(p); }
  }

  /** A key with its step but without its flag. */
  function LastOfStep(r: Request, t: string): string {
    if r.step != [] then r.step else LastOfTimes(r, t)
  }

  function BeforeStep(r: Request, t: string): string {
    if r.step != [] then WithTimes(r, t) else BeforeTimes(r, t)
  }

  lemma StepEnds(r: Request, t: string)
    requires Accepted(r, t) && PlainTenant(t)
    ensures WithStep(r, t) == BeforeStep(r, t) + ("|" + LastOfStep(r, t)) && Lacks(LastOfStep(r, t), '|')
    ensures LastOfStep(r, t) != NORMALIZED && (r.step != [] <==> IsDuration(LastOfStep(r, t)))
  {
    if r.step != [] {
      DurationChars(r.step);
      BarFree(r.step);
      assert NORMALIZED[|NORMALIZED| - 1] == 'e';
    } else {
      NothingBehind(WithTimes(r, t));
      TimesEnd(r, t);
      LastOfTimesIs(r, t);
    }
  }

  lemma NormalizedBarFree()
    ensures Lacks(NORMALIZED, '|')
  {
  }

  /** The flag, taken off the end: one side with it and one without would have the same
      last part. */
  lemma FlagOff(a: string, x: bool, p: string, b: string, y: bool, q: string)
    requires (if x then a + ("|" + NORMALIZED) else a) == (if y then b + ("|" + NORMALIZED) else b)
    requires exists c :: a == c + ("|" + p)
    requires exists d :: b == d + ("|" + q)
    requires Lacks(p, '|') && Lacks(q, '|') && p != NORMALIZED && q != NORMALIZED
    ensures x == y && a == b
  {
    NormalizedBarFree();
    var c :| a == c + ("|" + p);
    var d :| b == d + ("|" + q);
    if x && y {
      LastBar(a, NORMALIZED, b, NORMALIZED);
    } else if x {
      LastBar(a, NORMALIZED, d, q);
    } else if y {
      LastBar(c, p, b, NORMALIZED);
    }
  }

  lemma KeyOf(r: Request, t: string)
    ensures Key(r, t) == if r.normalize then WithStep(r, t) + ("|" + NORMALIZED) else WithStep(r, t)
  {
    NothingBehind(WithStep(r, t));
  }

  lemma FlagApart(r: Request, t: string, s: Request, u: string)
    requires Accepted(r, t) && Accepted(s, u) && PlainTenant(t) && PlainTenant(u) && Key(r, t) == Key(s, u)
    ensures r.normalize == s.normalize && WithStep(r, t) == WithStep(s, u)
  {
    KeyOf(r, t);
    KeyOf(s, u);
    StepEnds(r, t);
    StepEnds(s, u);
    FlagOff(WithStep(r, t), r.normalize, LastOfStep(r, t), WithStep(s, u), s.normalize, LastOfStep(s, u));
  }

  lemma StepsApart(r: Request, t: string, s: Request, u: string)
    requires Accepted(r, t) && Accepted(s, u) && PlainTenant(t) && PlainTenant(u) && WithStep(r, t) == WithStep(s, u)
    ensures r.step == s.step && WithTimes(r, t) == WithTimes(s, u)
  {
    StepEnds(r, t);
    StepEnds(s, u);
    LastBar(BeforeStep(r, t), LastOfStep(r, t), BeforeStep(s, u), LastOfStep(s, u));
    NothingBehind(WithTimes(r, t));
    NothingBehind(WithTimes(s, u));
  }

  /** The number of times in the key. */
  function Count(r: Request): nat {
    (if r.start.IsZero() then 0 else 1) + (if r.end.IsZero() then 0 else 1)
  }

  lemma FrontEnd(r: Request, t: string)
    ensures Front(r, t) == (AsciiLower(r.lang) + ("|" + r.query)) + ("|" + t)
  {
    var lang := AsciiLower(r.lang);
    Regroup(lang, "|" + r.query, "|" + t);
    Regroup("|", r.query, "|" + t);
  }

  lemma LastTimesSame(r: Request, t: string, s: Request, u: string)
    requires Accepted(r, t) && Accepted(s, u) && PlainTenant(t) && PlainTenant(u) && WithTimes(r, t) == WithTimes(s, u)
    ensures LastOfTimes(r, t) == LastOfTimes(s, u) && BeforeTimes(r, t) == BeforeTimes(s, u)
    ensures Count(r) == 0 <==> Count(s) == 0
  {
    TimesEnd(r, t);
    TimesEnd(s, u);
    LastBar(BeforeTimes(r, t), LastOfTimes(r, t), BeforeTimes(s, u), LastOfTimes(s, u));
    LastOfTimesIs(r, t);
    LastOfTimesIs(s, u);
  }

  /** The time that stands last. */
  function LastTime(r: Request): Instant {
    if !r.end.IsZero() then r.end else r.start
  }

  lemma CountsSame(r: Request, t: string, s: Request, u: string)
    requires Accepted(r, t) && Accepted(s, u) && PlainTenant(t) && PlainTenant(u)
    requires BeforeTimes(r, t) == BeforeTimes(s, u) && Count(r) > 0 && Count(s) > 0
    ensures Count(r) == Count(s) && Front(r, t) == Front(s, u) && (Count(r) == 2 ==> r.start == s.start)
  {
    NothingBehind(Front(r, t));
    NothingBehind(Front(s, u));
    if Count(r) == 2 && Count(s) == 2 {
      SameStart(r, t, s, u);
    } else if Count(r) == 2 {
      StartIsNoTenant(r, t, s, u);
    } else if Count(s) == 2 {
      StartIsNoTenant(s, u, r, t);
    }
  }

  lemma MetricTimesApart(r: Request, t: string, s: Request, u: string)
    requires Accepted(r, t) && Accepted(s, u) && PlainTenant(t) && PlainTenant(u) && WithTimes(r, t) == WithTimes(s, u)
    ensures Count(r) == Count(s) && Front(r, t) == Front(s, u)
    ensures (r.start == s.start && r.end == s.end) || (Count(r) == 1 && r.start == s.end && r.end == s.start)
  {
    LastTimesSame(r, t, s, u);
    if Count(r) == 0 {
      FrontEnd(r, t);
      FrontEnd(s, u);
    } else {
      FormatInjective(LastTime(r), LastTime(s));
      CountsSame(r, t, s, u);
    }
  }

  lemma StartIsNoTenant(r: Request, t: string, s: Request, u: string)
    requires r.start.Valid() && !r.start.IsZero() && PlainTenant(u)
    ensures Front(r, t) + TimePart(r.start) != Front(s, u)
  {
    FormatBarFree(r.start);
    FrontEnd(s, u);
    if Front(r, t) + TimePart(r.start) == Front(s, u) {
      LastBar(Front(r, t), Format(r.start), AsciiLower(s.lang) + ("|" + s.query), u);
    }
  }

  lemma SameStart(r: Request, t: string, s: Request, u: string)
    requires r.start.Valid() && !r.start.IsZero() && s.start.Valid() && !s.start.IsZero()
    requires Front(r, t) + TimePart(r.start) == Front(s, u) + TimePart(s.start)
    ensures Front(r, t) == Front(s, u) && r.start == s.start
  {
    FormatBarFree(r.start);
    FormatBarFree(s.start);
    LastBar(Front(r, t), Format(r.start), Front(s, u), Format(s.start));
    FormatInjective(r.start, s.start);
  }

  lemma QueriesApart(r: Request, t: string, s: Request, u: string)
    requires Accepted(r, t) && Accepted(s, u) && Lacks(t, '|') && Lacks(u, '|') && Front(r, t) == Front(s, u)
    ensures r.lang == s.lang && r.query == s.query && t == u
  {
    FrontApart(r, t, s, u);
    LastBar(r.query, t, s.query, u);
  }

  // ------------------------------------------------------------ the theorem

  lemma SwappedKeys(r: Request, s: Request, t: string)
    requires Swapped(r, s)
    ensures Key(r, t) == Key(s, t)
  {
    EitherSide(Front(r, t), TimePart(r.start), TimePart(r.end));
    assert Front(r, t) == Front(s, t);
  }

  lemma EitherSide(a: string, b: string, c: string)
    requires b == [] || c == []
    ensures (a + b) + c == (a + c) + b
  {
  }

  /** For tenants with plain names two accepted requests of any language, with any times,
      share a key if and only if they are the same request of the same tenant, or one has
      only a start and the other only an end, at the same instant, and they agree in all
      else. */
  lemma KeysOfPlainTenants(r: Request, t: string, s: Request, u: string)
    requires Accepted(r, t) && Accepted(s, u) && PlainTenant(t) && PlainTenant(u)
    ensures Key(r, t) == Key(s, u) <==> t == u && (r == s || Swapped(r, s))
  {
    if Key(r, t) == Key(s, u) {
      FlagApart(r, t, s, u);
      StepsApart(r, t, s, u);
      MetricTimesApart(r, t, s, u);
      QueriesApart(r, t, s, u);
    } else if t == u && Swapped(r, s) {
      SwappedKeys(r, s, t);
    }
  }

  // ------------------------------------------------------- tenants not plain

  ghost predicate ShareKey(r: Request, s: Request, t: string) {
    Accepted(r, t) && Accepted(s, t) && Key(r, t) == Key(s, t)
  }

  /** All requests of a tenant have different keys, but for the swapped ones. */
  ghost predicate TellsApart(t: string) {
    forall r, s :: ShareKey(r, s, t) ==> r == s || Swapped(r, s)
  }

  const ZERO := Instant(1, 1, 1, 0, 0, 0, 0)

  function Metric(query: string, start: Instant, step: string, normalize: bool): Request {
    Request("promql", query, start, ZERO, step, normalize)
  }

  lemma LongQuery(s: Request, t: string, r: Request)
    requires s.lang == "promql" && s.query == "a" && r == Metric("a" + ("|" + t), ZERO, [], false)
    ensures Key(r, t) == Front(s, t) + ("|" + t)
  {
    NothingBehind(Front(r, t));
    FrontEnd(r, t);
    assert Front(s, t) == AsciiLower(r.lang) + ("|" + r.query);
  }

  lemma LongAccepted(r: Request, query: string, t: string)
    requires t != [] && |query| > 1 && r == Metric(query, ZERO, [], false)
    ensures Accepted(r, t) && |r.query| > 1
  {
  }

  lemma NotApart(r: Request, s: Request, t: string)
    requires ShareKey(r, s, t) && |r.query| > 1 && s.query == "a"
    ensures !TellsApart(t)
  {
  }

  /** A tenant whose name is one more part for one request is just its name for another. */
  lemma SpoiltTenant(s: Request, t: string)
    requires s.lang == "promql" && s.query == "a" && Accepted(s, t)
    requires Key(s, t) == Front(s, t) + ("|" + t)
    ensures !TellsApart(t)
  {
    var r := Metric("a" + ("|" + t), ZERO, [], false);
    LongQuery(s, t, r);
    LongAccepted(r, "a" + ("|" + t), t);
    NotApart(r, s, t);
  }

  /** Among names without a bar the plain ones are exactly those whose requests have
      keys of their own, but for the swapped ones. */
  lemma PlainTenantsExactly(t: string)
    requires t != [] && Lacks(t, '|')
    ensures TellsApart(t) <==> PlainTenant(t)
  {
    if PlainTenant(t) {
      forall r, s | ShareKey(r, s, t) ensures r == s || Swapped(r, s) {
        KeysOfPlainTenants(r, t, s, t);
      }
    } else if t == NORMALIZED {
      FlagIsTenant(t);
    } else if IsDuration(t) {
      StepIsTenant(t);
    } else {
      TimeIsTenant(t);
    }
  }

  lemma FlagIsTenant(t: string)
    requires t == NORMALIZED
    ensures !TellsApart(t)
  {
    var s := Metric("a", ZERO, [], true);
    NothingBehind(Front(s, t));
    SpoiltTenant(s, t);
  }

  lemma StepIsTenant(t: string)
    requires t != [] && IsDuration(t)
    ensures !TellsApart(t)
  {
    var s := Metric("a", ZERO, t, false);
    NothingBehind(Front(s, t));
    NothingBehind(Front(s, t) + ("|" + t));
    SpoiltTenant(s, t);
  }

  lemma TimeIsTenant(t: string)
    requires t != [] && IsTime(t)
    ensures !TellsApart(t)
  {
    var x: Instant :| x.Valid() && !x.IsZero() && Format(x) == t;
    var s := Metric("a", x, [], false);
    NothingBehind(Front(s, t) + ("|" + t));
    SpoiltTenant(s, t);
  }

  // ------------------------------------------------------------- the cache

  /** As long as all tenants have plain names, what the cache holds for a request of any
      language is the answer to an earlier request of its tenant: this one, or the one with
      its single time as the other bound. */
  lemma HitsOfPlainTenants(events: seq<Event>, r: Request, tenant: string) returns (s: Served)
    requires forall k :: 0 <= k < |ServedIn(events)| ==>
               WellServed(ServedIn(events)[k]) && PlainTenant(ServedIn(events)[k].tenant)
    requires PlainTenant(tenant) && Accepted(r, tenant) && Key(r, tenant) in CacheAfter(events)
    ensures s in ServedIn(events) && s.payload == CacheAfter(events)[Key(r, tenant)]
    ensures s.tenant == tenant && (s.req == r || Swapped(r, s.req))
    ensures s.payload.lang == r.lang && s.payload.tenant == tenant
  {
    var served, key := ServedIn(events), Key(r, tenant);
    EntriesWereServed(events, key);
    var n :| 0 <= n < |served| && Key(served[n].req, served[n].tenant) == key
             && served[n].payload == CacheAfter(events)[key];
    s := served[n];
    assert WellServed(s);
    KeysOfPlainTenants(r, tenant, s.req, s.tenant);
  }
}
