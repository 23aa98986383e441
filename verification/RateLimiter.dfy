/** The limiter: a local bucket per tenant, then the sliding window in Redis.  Whether a
    local bucket has a token, whether Redis answers, and the clock are parameters. */
module RateLimiter {
  import opened Wrappers
  import opened SlidingWindow

  // ------------------------------------------------------------------- Redis

  /** The server runs the script without interruption, on one key. */
  class Redis {
    var keys: map<string, Key>
    const window: nat
    const limit: nat
    ghost var history: map<string, seq<Call>>

    ghost function CallsOf(key: string): seq<Call>
      reads this
    {
      if key in history then history[key] else []
    }

    /** Each key is what the calls made on it have left. */
    ghost predicate Valid()
      reads this
    {
      && keys.Keys == history.Keys
      && forall key :: key in keys ==> keys[key] == KeyAfter(history[key], window, limit)
    }

    constructor (window: nat, limit: nat)
      ensures Valid() && this.window == window && this.limit == limit && history == map[]
    {
      keys, history := map[], map[];
      this.window, this.limit := window, limit;
    }

    ghost function KeyAt(key: string): Key
      reads this
    {
      if key in keys then keys[key] else Key({}, 0)
    }

    /** The stamps that a call finds. */
    ghost function Kept(key: string, call: Call): set<nat>
      reads this
    {
      StillThere(KeyAt(key), call, window)
    }

    /** The commands of the script: with room among the stamps that it finds it adds its own
        and puts off the expiry of the key by a window. */
    method Commands(found: Key, call: Call) returns (k: Key, reply: int)
      ensures reply == if |StillThere(found, call, window)| < limit then 1 else 0
      ensures k == if reply == 1 then Key(StillThere(found, call, window) + {call.now}, call.now + window)
                   else Key(StillThere(found, call, window), found.deadline)
      ensures (k, reply == 1) == ScriptWithExpiry(found, call, window, limit)
    {
      ScriptMeans(found, call, window, limit);
      k := found;
      if call.dropped && k.deadline <= call.now {
        k := k.(members := {});
      }
      var now := call.now;
      k := k.(members := set m | m in k.members && m + window > now);
      assert k.members == StillThere(found, call, window);
      if |k.members| >= limit {
        reply := 0;
      } else {
        k := Key(k.members + {now}, now + window);
        reply := 1;
      }
    }

    /** The script on one key. */
    method RunScript(key: string, call: Call) returns (reply: int)
      requires Valid()
      modifies this
      ensures Valid() && history == old(history)[key := old(CallsOf(key)) + [call]]
      ensures reply == if AnswersYes(CallsOf(key), |old(CallsOf(key))|, window, limit) then 1 else 0
      ensures reply == if |old(Kept(key, call))| < limit then 1 else 0
      ensures keys == old(keys)[key := if reply == 1 then Key(old(Kept(key, call)) + {call.now}, call.now + window)
                                       else Key(old(Kept(key, call)), old(KeyAt(key)).deadline)]
    {
      ghost var before := CallsOf(key);
      OneMore(before, call, window, limit);
      var k := if key in keys then keys[key] else Key({}, 0);
      k, reply := Commands(k, call);
      keys, history := keys[key := k], history[key := before + [call]];
    }
  }

  /** The stamps of the last window, and none if the key has expired and Redis has
      dropped it. */
  function StillThere(k: Key, call: Call, window: nat): set<nat> {
    set m | m in k.members && m + window > call.now && !(call.dropped && k.deadline <= call.now)
  }

  lemma ScriptMeans(k: Key, call: Call, window: nat, limit: nat)
    ensures var found := StillThere(k, call, window);
            ScriptWithExpiry(k, call, window, limit)
            == if |found| < limit then (Key(found + {call.now}, call.now + window), true)
               else (Key(found, k.deadline), false)
  {
    assert Trim(Seen(k, call), call.now, window) == StillThere(k, call, window);
  }

  // ----------------------------------------------------------------- limiter

  const MINUTE_NANOS := 60_000_000_000
  const MINUTE_MILLIS: nat := 60_000

  datatype Config = Config(enabled: bool, rps: real, burst: int, windowNanos: int)

  /** The default burst is twice the rate, and at least one. */
  function BurstOf(cfg: Config): (burst: int)
    ensures burst >= 1
    ensures cfg.burst > 0 ==> burst == cfg.burst
    ensures cfg.burst <= 0 && cfg.rps >= 0.5 ==> burst as real <= cfg.rps * 2.0 < burst as real + 1.0
    ensures cfg.burst <= 0 && cfg.rps < 0.5 ==> burst == 1
  {
    if cfg.burst > 0 then cfg.burst
    else
      var twice := (cfg.rps * 2.0).Floor;
      if twice < 1 then 1 else twice
  }

  function WindowNanosOf(cfg: Config): (w: int)
    ensures cfg.windowNanos > 0 ==> w == cfg.windowNanos
    ensures cfg.windowNanos <= 0 ==> w == 60_000_000_000
  {
    if cfg.windowNanos <= 0 then MINUTE_NANOS else cfg.windowNanos
  }

  /** Duration.Milliseconds, and the default of allowRedis: a window that is shorter
      than a millisecond becomes a minute. */
  function WindowMillis(nanos: int): (ms: nat)
    requires nanos > 0
    ensures ms >= 1
    ensures nanos < 1_000_000 ==> ms == 60_000
    ensures nanos >= 1_000_000 ==> ms * 1_000_000 <= nanos < (ms + 1) * 1_000_000
  {
    if nanos / 1_000_000 <= 0 then MINUTE_MILLIS else nanos / 1_000_000
  }

  /** A bucket of golang.org/x/time/rate; no rate means no limit. */
  datatype Bucket = Bucket(rate: Option<real>, burst: int)

  datatype Verdict = Allowed | RateLimited | RedisFailed

  class Limiter {
    const enabled: bool
    const rps: real
    const burst: int
    const windowNanos: int
    const redis: Redis?
    var local: map<string, Bucket>

    /** The limiter and the scripts it sends agree on window and limit. */
    ghost predicate Valid()
      reads this, redis
    {
      enabled ==> && burst >= 1 && windowNanos > 0
                  && (redis != null ==>
                        redis.Valid() && redis.window == WindowMillis(windowNanos) && redis.limit == burst)
                  && forall t :: t in local ==> local[t] == Bucket(if rps > 0.0 then Some(rps) else None, burst)
    }

    constructor (cfg: Config, redis: Redis?)
      requires redis != null && cfg.enabled ==>
                 redis.Valid() && redis.window == WindowMillis(WindowNanosOf(cfg)) && redis.limit == BurstOf(cfg)
      ensures Valid() && enabled == cfg.enabled && local == map[]
      ensures enabled ==>
                && this.redis == redis && rps == cfg.rps
                && burst == BurstOf(cfg) && windowNanos == WindowNanosOf(cfg)
    {
      enabled, local := cfg.enabled, map[];
      if cfg.enabled {
        rps, burst, windowNanos := cfg.rps, BurstOf(cfg), WindowNanosOf(cfg);
        this.redis := redis;
      } else {
        rps, burst, windowNanos := 0.0, 0, 0;
        this.redis := null;
      }
    }

    /** The first call of a tenant makes its bucket; the bucket then says what it says. */
    method AllowLocal(tenant: string, token: bool) returns (ok: bool)
      requires Valid() && enabled
      modifies this
      ensures Valid() && ok == token
      ensures local.Keys == old(local.Keys) + {tenant}
    {
      if tenant !in local {
        local := local[tenant := Bucket(if rps > 0.0 then Some(rps) else None, burst)];
      }
      ok := token;
    }

    method AllowRedis(tenant: string, call: Call, fault: bool) returns (r: Option<bool>)
      requires Valid() && enabled && redis != null
      modifies redis
      ensures Valid()
      ensures fault ==> r == None && redis.history == old(redis.history)
      ensures !fault ==> var key := "rate:" + tenant;
                redis.history == old(redis.history)[key := old(redis.CallsOf(key)) + [call]]
      ensures !fault ==> var key := "rate:" + tenant;
                r == Some(AnswersYes(redis.CallsOf(key), |old(redis.CallsOf(key))|, redis.window, redis.limit))
      ensures !fault ==> r == Some(|old(redis.Kept("rate:" + tenant, call))| < redis.limit)
    {
      if fault {
        return None;
      }
      var reply := redis.RunScript("rate:" + tenant, call);
      return Some(reply == 1);
    }

    /** Whether the limiter asks anybody at all. */
    predicate Asks(tenant: string) {
      enabled && tenant != ""
    }

    /** Room in the tenant's window that ends now, on the answers given so far. */
    ghost predicate Room(calls: seq<Call>, now: nat)
      reads this, redis
      requires redis != null
    {
      |InWindow(Stamps(Times(calls), redis.window, redis.limit), now, redis.window)| < redis.limit
    }

    /** Off, or without a tenant, everything passes.  Otherwise a request passes if and
        only if the bucket has a token and fewer stamps are kept than the limit, which on a
        clock that has not gone back for this tenant means that its window has room; and no
        other tenant's window is touched. */
    method Allow(tenant: string, token: bool, call: Call, fault: bool) returns (v: Verdict)
      requires Valid()
      modifies this, redis
      ensures Valid()
      ensures !Asks(tenant) ==> v == Allowed && local == old(local)
      ensures Asks(tenant) && !token ==> v == RateLimited
      ensures !Asks(tenant) || !token || redis == null || fault ==> redis == null || redis.history == old(redis.history)
      ensures Asks(tenant) && token && redis == null ==> v == Allowed
      ensures Asks(tenant) && token && redis != null && fault ==> v == RedisFailed
      ensures Asks(tenant) && token && redis != null && !fault ==>
                v == if |old(redis.Kept("rate:" + tenant, call))| < redis.limit then Allowed else RateLimited
      ensures Asks(tenant) && token && redis != null && !fault
               && OnTime(old(redis.CallsOf("rate:" + tenant)) + [call]) ==>
                v == if old(Room(redis.CallsOf("rate:" + tenant), call.now)) then Allowed else RateLimited
      ensures redis != null ==> forall other :: other != tenant ==>
                redis.CallsOf("rate:" + other) == old(redis.CallsOf("rate:" + other))
    {
      if !enabled || tenant == "" {
        return Allowed;
      }
      var ok := AllowLocal(tenant, token);
      if !ok {
        return RateLimited;
      }
      if redis != null {
        ghost var before := redis.CallsOf("rate:" + tenant);
        var answer := AllowRedis(tenant, call, fault);
        OtherKeys(tenant);
        match answer
        case None => return RedisFailed;
        case Some(admitted) =>
          OneMore(before, call, redis.window, redis.limit);
          if OnTime(before + [call]) { RoomNow(before, call, redis.window, redis.limit); }
          if !admitted {
            return RateLimited;
          }
      }
      return Allowed;
    }
  }

  lemma OtherKeys(tenant: string)
    ensures forall other: string :: other != tenant ==> "rate:" + other != "rate:" + tenant
  {
    forall other: string | other != tenant ensures "rate:" + other != "rate:" + tenant {
      assert ("rate:" + other)[5..] == other && ("rate:" + tenant)[5..] == tenant;
    }
  }

  lemma RoomNow(before: seq<Call>, call: Call, window: nat, limit: nat)
    requires OnTime(before + [call]) && window >= 1 && limit >= 1
    ensures ScriptWithExpiry(KeyAfter(before, window, limit), call, window, limit).1
            <==> |InWindow(Stamps(Times(before), window, limit), call.now, window)| < limit
  {
    var all := before + [call];
    assert all[|before|] == call && forall j :: 0 <= j < |before| ==> all[j] == before[j];
    RoomDecides(before, call, window, limit);
  }
}
