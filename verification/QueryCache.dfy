/** The cached path of handleQuery: look up, ask the backend, store.  Many requests run
    at once, the store may forget any entry at any time, and a request may store its
    answer long after others have come and gone. */
module QueryCache {
  import opened Wrappers
  import opened GoStrings
  import opened CacheKey
  import opened CacheKeyTheorems

  /** The response body: language, tenant and the backend's result. */
  datatype Response = Response(lang: string, tenant: string, result: string)

  /** A request that the backend has answered. */
  datatype Served = Served(req: Request, tenant: string, payload: Response)

  /** `Stored(n)` is the cache write of the n-th served request. */
  datatype Event = Dispatched(served: Served) | Stored(n: nat) | Forgotten(key: string)

  function ServedIn(events: seq<Event>): seq<Served> {
    if events == [] then []
    else
      var last := events[|events| - 1];
      ServedIn(events[..|events| - 1]) + if last.Dispatched? then [last.served] else []
  }

  function CacheStep(cache: map<string, Response>, served: seq<Served>, e: Event): map<string, Response> {
    match e
    case Dispatched(_) => cache
    case Forgotten(key) => cache - {key}
    case Stored(n) => if n >= |served| then cache else cache[Key(served[n].req, served[n].tenant) := served[n].payload]
  }

  function CacheAfter(events: seq<Event>): map<string, Response> {
    if events == [] then map[]
    else
      var front := events[..|events| - 1];
      CacheStep(CacheAfter(front), ServedIn(front), events[|events| - 1])
  }

  /** Only accepted requests reach the backend, and the body names their own language
      and tenant. */
  predicate WellServed(s: Served) {
    Accepted(s.req, s.tenant) && s.payload.lang == s.req.lang && s.payload.tenant == s.tenant
  }

  lemma EventsSnoc(events: seq<Event>, e: Event)
    ensures ServedIn(events + [e]) == ServedIn(events) + if e.Dispatched? then [e.served] else []
    ensures CacheAfter(events + [e]) == CacheStep(CacheAfter(events), ServedIn(events), e)
  {
    assert (events + [e])[..|events|] == events;
  }

  ghost predicate From(served: seq<Served>, key: string, payload: Response) {
    exists n :: 0 <= n < |served| && Key(served[n].req, served[n].tenant) == key && served[n].payload == payload
  }

  lemma FromGrows(served: seq<Served>, more: seq<Served>, key: string, payload: Response)
    requires From(served, key, payload)
    ensures From(served + more, key, payload)
  {
    var n :| 0 <= n < |served| && Key(served[n].req, served[n].tenant) == key && served[n].payload == payload;
    assert (served + more)[n] == served[n];
  }

  lemma StepKeepsFrom(cache: map<string, Response>, served: seq<Served>, e: Event, key: string)
    requires key in CacheStep(cache, served, e) && (key in cache ==> From(served, key, cache[key]))
    ensures From(served, key, CacheStep(cache, served, e)[key])
  {
  }

  /** Whatever has happened, an entry is the answer to an earlier request with its key. */
  lemma {:induction false} EntriesWereServed(events: seq<Event>, key: string)
    requires key in CacheAfter(events)
    ensures From(ServedIn(events), key, CacheAfter(events)[key])
  {
    var front, e := events[..|events| - 1], events[|events| - 1];
    assert events == front + [e];
    EventsSnoc(front, e);
    if key in CacheAfter(front) { EntriesWereServed(front, key); }
    StepKeepsFrom(CacheAfter(front), ServedIn(front), e, key);
    FromGrows(ServedIn(front), if e.Dispatched? then [e.served] else [], key, CacheAfter(events)[key]);
  }

  /** Cache soundness over whole runs: what the cache holds for a log or trace request is
      the answer that an earlier request got that was the same in language, query,
      tenant, times, step and flag, however often others stored, forgot or overtook. */
  lemma HitsAreOwnAnswers(events: seq<Event>, r: Request, tenant: string) returns (n: nat)
    requires forall k :: 0 <= k < |ServedIn(events)| ==> WellServed(ServedIn(events)[k])
    requires forall k :: 0 <= k < |ServedIn(events)| ==> !Confusable(tenant, ServedIn(events)[k].tenant)
    requires IsRange(r) && Accepted(r, tenant) && Key(r, tenant) in CacheAfter(events)
    ensures n < |ServedIn(events)|
    ensures ServedIn(events)[n] == Served(r, tenant, CacheAfter(events)[Key(r, tenant)])
    ensures var p := CacheAfter(events)[Key(r, tenant)]; p.lang == r.lang && p.tenant == tenant
  {
    var served, key := ServedIn(events), Key(r, tenant);
    EntriesWereServed(events, key);
    n :| 0 <= n < |served| && Key(served[n].req, served[n].tenant) == key
        && served[n].payload == CacheAfter(events)[key];
    assert WellServed(served[n]);
    KeyIsInjective(r, tenant, served[n].req, served[n].tenant);
  }

  // -------------------------------------------------------------- the server

  datatype Outcome = Refused(why: Refusal) | Limited | Hit(body: Response) | Fresh(body: Response) | BackendFailed

  class Server {
    const enabled: bool
    var cache: map<string, Response>
    /** What has happened; nothing but `Others` reads it. */
    var events: seq<Event>

    ghost predicate Valid()
      reads this
    {
      && cache == CacheAfter(events)
      && (!enabled ==> cache == map[])
      && forall k :: 0 <= k < |ServedIn(events)| ==> WellServed(ServedIn(events)[k])
    }

    constructor (enabled: bool)
      ensures Valid() && events == [] && this.enabled == enabled
    {
      this.enabled := enabled;
      cache, events := map[], [];
    }

    method Note(e: Event)
      requires cache == CacheAfter(events + [e]) && (!enabled ==> cache == map[])
      requires forall k :: 0 <= k < |ServedIn(events)| ==> WellServed(ServedIn(events)[k])
      requires e.Dispatched? ==> WellServed(e.served)
      modifies this`events
      ensures Valid() && events == old(events) + [e]
      ensures ServedIn(events) == old(ServedIn(events)) + if e.Dispatched? then [e.served] else []
    {
      EventsSnoc(events, e);
      events := events + [e];
    }

    method Get(key: string) returns (body: Option<Response>)
      requires Valid()
      ensures body == if key in cache then Some(cache[key]) else None
    {
      body := if enabled && key in cache then Some(cache[key]) else None;
    }

    method Set(key: string, body: Response, n: nat)
      requires Valid() && n < |ServedIn(events)| && ServedIn(events)[n].payload == body
      requires Key(ServedIn(events)[n].req, ServedIn(events)[n].tenant) == key
      modifies this
      ensures Valid() && ServedIn(events) == old(ServedIn(events))
      ensures cache == if enabled then old(cache)[key := body] else old(cache)
    {
      if enabled {
        EventsSnoc(events, Stored(n));
        cache := cache[key := body];
        Note(Stored(n));
      }
    }

    method Forget(key: string)
      requires Valid()
      modifies this
      ensures Valid() && ServedIn(events) == old(ServedIn(events)) && cache == old(cache) - {key}
    {
      EventsSnoc(events, Forgotten(key));
      cache := cache - {key};
      Note(Forgotten(key));
    }

    /** The backend's answer to an accepted request. */
    method Dispatch(r: Request, tenant: string, result: string) returns (body: Response)
      requires Valid() && Accepted(r, tenant)
      modifies this`events
      ensures Valid() && body == Response(r.lang, tenant, result)
      ensures ServedIn(events) == old(ServedIn(events)) + [Served(r, tenant, body)]
    {
      body := Response(r.lang, tenant, result);
      EventsSnoc(events, Dispatched(Served(r, tenant, body)));
      Note(Dispatched(Served(r, tenant, body)));
    }

    /** Any number of steps of other requests, and of entries that are forgotten; none for
        a request that is alone. */
    method Others(alone: bool)
      requires Valid()
      modifies this
      ensures Valid() && old(ServedIn(events)) <= ServedIn(events) && (alone ==> cache == old(cache))
    {
      if alone {
        return;
      }
      var steps: nat := *;
      while steps > 0
        invariant Valid() && old(ServedIn(events)) <= ServedIn(events)
      {
        var e: Event := *;
        if e.Forgotten? {
          Forget(e.key);
        } else if e.Dispatched? && Accepted(e.served.req, e.served.tenant) {
          var body := Dispatch(e.served.req, e.served.tenant, e.served.payload.result);
        } else if e.Stored? && 0 <= e.n < |ServedIn(events)| {
          var s := ServedIn(events)[e.n];
          Set(Key(s.req, s.tenant), s.payload, e.n);
        }
        steps := steps - 1;
      }
    }

    /** What a hit means for its caller. */
    ghost predicate OwnAnswer(r: Request, tenant: string, body: Response)
      reads this
    {
      && body.lang == r.lang && body.tenant == tenant
      && exists n :: 0 <= n < |ServedIn(events)| && ServedIn(events)[n] == Served(r, tenant, body)
    }

    ghost predicate NoConfusion(tenant: string)
      reads this
    {
      forall k :: 0 <= k < |ServedIn(events)| ==> !Confusable(tenant, ServedIn(events)[k].tenant)
    }

    /** The cached path of handleQuery.  A hit is the caller's own earlier answer, a fresh
        body is the backend's and is in the cache at the end; a request that is alone is
        a hit exactly when the cache had its key. */
    method Answer(r: Request, tenant: string, answer: Option<string>, alone: bool) returns (v: Outcome)
      requires Valid() && Accepted(r, tenant)
      modifies this
      ensures Valid() && old(ServedIn(events)) <= ServedIn(events)
      ensures v.Hit? || v.Fresh? || v.BackendFailed?
      ensures v.Hit? ==> enabled && (IsRange(r) && NoConfusion(tenant) ==> OwnAnswer(r, tenant, v.body))
      ensures v.Fresh? ==> answer == Some(v.body.result) && OwnAnswer(r, tenant, v.body)
      ensures v.Fresh? && enabled ==> Key(r, tenant) in cache && cache[Key(r, tenant)] == v.body
      ensures v.BackendFailed? ==> answer.None?
      ensures alone ==> (v.Hit? <==> old(Key(r, tenant) in cache)) && (v.Hit? ==> v.body == old(cache)[Key(r, tenant)])
    {
      var key := BuildCacheKey(r, tenant);
      Others(alone);
      var cached := Get(key);
      if cached.Some? {
        if IsRange(r) && NoConfusion(tenant) {
          var n := HitsAreOwnAnswers(events, r, tenant);
        }
        return Hit(cached.value);
      }
      Others(alone);
      if answer.None? {
        return BackendFailed;
      }
      var body := Fetch(r, tenant, key, answer.value, alone);
      return Fresh(body);
    }

    /** The backend's answer, and then the cache write. */
    method Fetch(r: Request, tenant: string, key: string, result: string, alone: bool) returns (body: Response)
      requires Valid() && Accepted(r, tenant) && key == Key(r, tenant)
      modifies this
      ensures Valid() && old(ServedIn(events)) <= ServedIn(events)
      ensures body.result == result && OwnAnswer(r, tenant, body)
      ensures enabled ==> key in cache && cache[key] == body
    {
      var n := |ServedIn(events)|;
      body := Dispatch(r, tenant, result);
      assert ServedIn(events)[n] == Served(r, tenant, body);
      ghost var before := ServedIn(events);
      Others(alone);
      assert ServedIn(events)[n] == before[n];
      Set(key, body, n);
    }

    /** handleQuery, from the decoded request and the authenticated tenant on.  Whether
        the limiter passes it and what the backend answers are parameters. */
    method HandleQuery(req: Request, tenant: string, limited: bool, answer: Option<string>, alone: bool)
      returns (v: Outcome)
      requires Valid() && req.start.Valid() && req.end.Valid()
      modifies this
      ensures Valid() && old(ServedIn(events)) <= ServedIn(events)
      ensures var r := req.(lang := AsciiLower(req.lang));
              && (v.Refused? <==> !Answerable(r, tenant)) && (v.Limited? <==> Answerable(r, tenant) && limited)
              && (v.Refused? ==> RefusedFor(r, tenant, v.why)) && (v.Refused? || v.Limited? ==> unchanged(this))
      ensures var r := req.(lang := AsciiLower(req.lang));
              && (v.Hit? ==> enabled && (IsRange(r) && NoConfusion(tenant) ==> OwnAnswer(r, tenant, v.body)))
              && (v.Fresh? ==> answer == Some(v.body.result) && OwnAnswer(r, tenant, v.body))
              && (v.Fresh? && enabled ==> Key(r, tenant) in cache && cache[Key(r, tenant)] == v.body)
              && (v.BackendFailed? ==> answer.None?)
      ensures var key := Key(req.(lang := AsciiLower(req.lang)), tenant);
              alone && !v.Refused? && !v.Limited? ==>
                (v.Hit? <==> old(key in cache)) && (v.Hit? ==> v.body == old(cache)[key])
    {
      var r := req.(lang := AsciiLower(req.lang));
      var refusal := Check(r, tenant);
      AnsweredExactly(r, tenant);
      if refusal.Some? {
        RefusedExactly(r, tenant, refusal.value);
        return Refused(refusal.value);
      }
      if limited {
        return Limited;
      }
      v := Answer(r, tenant, answer, alone);
    }
  }
}
