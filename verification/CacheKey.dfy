/** The key of the query cache: fields joined by bars, of which the query may hold any
    number.  For log and trace queries the key still tells all its fields apart. */
module CacheKey {
  import opened Wrappers
  import opened GoStrings
  import opened Timestamps
  import opened Durations

  datatype Request = Request(lang: string, query: string, start: Instant, end: Instant, step: string, normalize: bool)

  // ------------------------------------------------------------ the requests

  datatype Refusal = NoQuery | BadStep | NoTenant | BadLanguage | NoTimeRange | StartAfterEnd

  /** The checks of handleQuery before the limiter, in their order; the language is
      lower-cased by then. */
  function Check(r: Request, tenant: string): Option<Refusal> {
    if r.query == [] then Some(NoQuery)
    else if r.step != [] && !IsDuration(r.step) then Some(BadStep)
    else if tenant == [] then Some(NoTenant)
    else if r.lang == "promql" then None
    else if r.lang != "logql" && r.lang != "traceql" then Some(BadLanguage)
    else if r.start.IsZero() || r.end.IsZero() then Some(NoTimeRange)
    else if r.start.After(r.end) then Some(StartAfterEnd)
    else None
  }

  /** When a request is refused for this reason: each check comes after those before it. */
  predicate RefusedFor(r: Request, tenant: string, why: Refusal) {
    match why
    case NoQuery => r.query == ""
    case BadStep => r.query != "" && r.step != "" && !IsDuration(r.step)
    case NoTenant => Readable(r) && tenant == ""
    case BadLanguage => Readable(r) && tenant != "" && r.lang !in {"promql", "logql", "traceql"}
    case NoTimeRange => Readable(r) && tenant != "" && r.lang in {"logql", "traceql"} && !BothTimes(r)
    case StartAfterEnd =>
      Readable(r) && tenant != "" && r.lang in {"logql", "traceql"} && BothTimes(r) && Earlier(r.end, r.start)
  }

  predicate Readable(r: Request) {
    r.query != "" && (r.step == "" || IsDuration(r.step))
  }

  /** Neither is January 1 of year 1. */
  predicate BothTimes(r: Request) {
    r.start != Instant(1, 1, 1, 0, 0, 0, 0) && r.end != Instant(1, 1, 1, 0, 0, 0, 0)
  }

  /** A query, a step that is a duration if there is one, a tenant, and for log and trace
      queries both times, the end not before the start. */
  predicate Answerable(r: Request, tenant: string) {
    && Readable(r) && tenant != ""
    && (r.lang == "promql" || (r.lang in {"logql", "traceql"} && BothTimes(r) && !Earlier(r.end, r.start)))
  }

  lemma RefusedExactly(r: Request, tenant: string, why: Refusal)
    ensures Check(r, tenant) == Some(why) <==> RefusedFor(r, tenant, why)
  {
    AfterIsLater(r.start, r.end);
  }

  lemma AnsweredExactly(r: Request, tenant: string)
    ensures Check(r, tenant) == None <==> Answerable(r, tenant)
  {
    AfterIsLater(r.start, r.end);
  }

  predicate Accepted(r: Request, tenant: string) {
    r.start.Valid() && r.end.Valid() && Check(r, tenant) == None
  }

  predicate IsRange(r: Request) {
    r.lang == "logql" || r.lang == "traceql"
  }

  // ------------------------------------------------------------------ the key

  const NORMALIZED := "normalize=true"

  function TimePart(t: Instant): string {
    if t.IsZero() then [] else "|" + Format(t)
  }

  function Query(r: Request, tenant: string): string {
    r.query + ("|" + tenant)
  }

  function Front(r: Request, tenant: string): string {
    AsciiLower(r.lang) + ("|" + Query(r, tenant))
  }

  function WithTimes(r: Request, tenant: string): string {
    Front(r, tenant) + TimePart(r.start) + TimePart(r.end)
  }

  function WithStep(r: Request, tenant: string): string {
    WithTimes(r, tenant) + if r.step != [] then "|" + r.step else []
  }

  function Key(r: Request, tenant: string): string {
    WithStep(r, tenant) + if r.normalize then "|" + NORMALIZED else []
  }

  lemma {:induction false} JoinSnoc(parts: seq<string>, last: string)
    requires parts != []
    ensures Join(parts + [last], "|") == Join(parts, "|") + ("|" + last)
  {
    var all := parts + [last];
    assert all[1..] == parts[1..] + [last];
    if |parts| == 1 {
      assert all == [parts[0], last];
    } else {
      JoinSnoc(parts[1..], last);
      assert all[0] == parts[0];
    }
  }

  lemma JoinThree(a: string, b: string, c: string)
    ensures Join([a, b, c], "|") == a + ("|" + (b + ("|" + c)))
  {
    var parts := [a, b, c];
    assert parts[1..] == [b, c] && parts[1..][1..] == [c];
    assert Join(parts[1..], "|") == b + "|" + c;
    Regroup(a, "|", b + ("|" + c));
    Regroup(b, "|", c);
  }

  method AppendIf(parts: seq<string>, on: bool, part: string) returns (more: seq<string>)
    requires parts != []
    ensures more == parts + (if on then [part] else []) && more != []
    ensures Join(more, "|") == Join(parts, "|") + if on then "|" + part else []
  {
    more := parts;
    if on {
      JoinSnoc(parts, part);
      more := more + [part];
    }
  }

  /** buildCacheKey: parts are appended one by one, then joined. */
  method BuildCacheKey(r: Request, tenant: string) returns (key: string)
    ensures key == Key(r, tenant)
    ensures key == Join([AsciiLower(r.lang), r.query, tenant]
                        + (if r.start == Instant(1, 1, 1, 0, 0, 0, 0) then [] else [Format(r.start)])
                        + (if r.end == Instant(1, 1, 1, 0, 0, 0, 0) then [] else [Format(r.end)])
                        + (if r.step == "" then [] else [r.step])
                        + (if r.normalize then ["normalize=true"] else []), "|")
  {
    var parts := [AsciiLower(r.lang), r.query, tenant];
    JoinThree(AsciiLower(r.lang), r.query, tenant);
    parts := AppendIf(parts, !r.start.IsZero(), Format(r.start));
    parts := AppendIf(parts, !r.end.IsZero(), Format(r.end));
    parts := AppendIf(parts, r.step != "", r.step);
    parts := AppendIf(parts, r.normalize, NORMALIZED);
    key := Join(parts, "|");
    KeyIs(r, tenant, key);
  }

  lemma KeyIs(r: Request, tenant: string, key: string)
    requires key == Front(r, tenant) + (if !r.start.IsZero() then "|" + Format(r.start) else [])
                    + (if !r.end.IsZero() then "|" + Format(r.end) else [])
                    + (if r.step != "" then "|" + r.step else []) + (if r.normalize then "|" + NORMALIZED else [])
    ensures key == Key(r, tenant)
  {
  }
}
