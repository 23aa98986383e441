/** The sliding-window script: a set of admitted millisecond stamps per tenant that is
    trimmed and counted on every call.  Theorems over whole runs of one tenant's calls,
    for every window and every limit. */
module SlidingWindow {

  /** ZREMRANGEBYSCORE key 0 now - window. */
  function Trim(members: set<nat>, now: nat, window: nat): set<nat> {
    set m | m in members && m + window > now
  }

  /** One call of the script: ZADD adds the stamp itself, so a stamp that is there
      already is not added again. */
  function Script(members: set<nat>, now: nat, window: nat, limit: nat): (r: (set<nat>, bool)) {
    var kept := Trim(members, now, window);
    if |kept| >= limit then (kept, false) else (kept + {now}, true)
  }

  /** The set after a run of calls at these times, from none. */
  function State(times: seq<nat>, window: nat, limit: nat): set<nat> {
    if times == [] then {}
    else Script(State(times[..|times| - 1], window, limit), times[|times| - 1], window, limit).0
  }

  /** Whether call k of the run is admitted. */
  predicate Admits(times: seq<nat>, k: nat, window: nat, limit: nat)
    requires k < |times|
  {
    Script(State(times[..k], window, limit), times[k], window, limit).1
  }

  /** The distinct stamps at which some call was admitted. */
  ghost function Stamps(times: seq<nat>, window: nat, limit: nat): set<nat> {
    set k | 0 <= k < |times| && Admits(times, k, window, limit) :: times[k]
  }

  /** Those in the window that ends at t, (t - window, t]. */
  ghost function InWindow(stamps: set<nat>, t: nat, window: nat): set<nat> {
    set m | m in stamps && m <= t < m + window
  }

  ghost predicate NonDecreasing(times: seq<nat>) {
    forall j, k :: 0 <= j < k < |times| ==> times[j] <= times[k]
  }

  ghost predicate Increasing(times: seq<nat>) {
    forall j, k :: 0 <= j < k < |times| ==> times[j] < times[k]
  }

  lemma SubsetSize<T>(a: set<T>, b: set<T>)
    requires a <= b
    ensures |a| <= |b|
  {
    var rest := b - a;
    assert b == a + rest;
  }

  lemma AdmitsPrefix(times: seq<nat>, k: nat, n: nat, window: nat, limit: nat)
    requires k < n <= |times|
    ensures Admits(times[..n], k, window, limit) == Admits(times, k, window, limit)
  {
    assert times[..n][..k] == times[..k];
  }

  lemma StampsSnoc(times: seq<nat>, now: nat, window: nat, limit: nat)
    ensures Stamps(times + [now], window, limit)
         == Stamps(times, window, limit) + if Admits(times + [now], |times|, window, limit) then {now} else {}
  {
    var all := times + [now];
    assert all[..|times|] == times;
    forall k | 0 <= k < |times| ensures Admits(all, k, window, limit) == Admits(times, k, window, limit) {
      AdmitsPrefix(all, k, |times|, window, limit);
    }
    var a, b := Stamps(all, window, limit),
        Stamps(times, window, limit) + if Admits(all, |times|, window, limit) then {now} else {};
    forall m | m in a ensures m in b {
      var k :| 0 <= k < |all| && Admits(all, k, window, limit) && all[k] == m;
      if k < |times| { assert times[k] == m; }
    }
    forall m | m in b ensures m in a {
      if m in Stamps(times, window, limit) {
        var k :| 0 <= k < |times| && Admits(times, k, window, limit) && times[k] == m;
        assert all[k] == m;
      } else {
        assert all[|times|] == m;
      }
    }
  }

  lemma SnocOf(times: seq<nat>)
    requires times != []
    ensures times == times[..|times| - 1] + [times[|times| - 1]]
  {
  }

  lemma StateSnoc(times: seq<nat>, now: nat, window: nat, limit: nat)
    ensures State(times + [now], window, limit) == Script(State(times, window, limit), now, window, limit).0
    ensures Admits(times + [now], |times|, window, limit) == Script(State(times, window, limit), now, window, limit).1
  {
    assert (times + [now])[..|times|] == times;
  }

  lemma StampsUpTo(times: seq<nat>, window: nat, limit: nat)
    requires NonDecreasing(times)
    ensures forall m :: m in Stamps(times, window, limit) ==> times != [] && m <= times[|times| - 1]
  {
  }

  lemma ScriptKeepsWindow(members: set<nat>, stamps: set<nat>, last: nat, now: nat, window: nat, limit: nat)
    requires members == InWindow(stamps, last, window) && |members| <= limit && limit >= 1 && window >= 1
    requires last <= now && forall m :: m in stamps ==> m <= last
    ensures Trim(members, now, window) == InWindow(stamps, now, window)
    ensures var (members', admitted) := Script(members, now, window, limit);
            |members'| <= limit && members' == InWindow(stamps + if admitted then {now} else {}, now, window)
  {
    assert Trim(members, now, window) == InWindow(stamps, now, window);
    SubsetSize(Trim(members, now, window), members);
  }

  /** The set and the stamps of a run that is one call longer. */
  lemma Longer(times: seq<nat>, now: nat, all: seq<nat>, window: nat, limit: nat)
    requires all == times + [now]
    ensures var (members, admitted) := Script(State(times, window, limit), now, window, limit);
            && State(all, window, limit) == members
            && Stamps(all, window, limit) == Stamps(times, window, limit) + if admitted then {now} else {}
  {
    StateSnoc(times, now, window, limit);
    StampsSnoc(times, now, window, limit);
  }

  lemma NoCalls(window: nat, limit: nat)
    ensures State([], window, limit) == {} && Stamps([], window, limit) == {}
  {
  }

  /** On a clock that does not go back the script's set is exactly the admitted stamps
      that are less than a window old, and never more of them than the limit. */
  lemma {:induction false} StateIsWindow(times: seq<nat>, window: nat, limit: nat)
    requires NonDecreasing(times) && window >= 1 && limit >= 1
    ensures |State(times, window, limit)| <= limit
    ensures times != [] ==>
             State(times, window, limit) == InWindow(Stamps(times, window, limit), times[|times| - 1], window)
  {
    if times != [] {
      var front, now := times[..|times| - 1], times[|times| - 1];
      SnocOf(times);
      StateIsWindow(front, window, limit);
      StampsUpTo(front, window, limit);
      Longer(front, now, times, window, limit);
      NoCalls(window, limit);
      ScriptKeepsWindow(State(front, window, limit), Stamps(front, window, limit),
                        if front == [] then now else front[|front| - 1], now, window, limit);
    }
  }

  /** The script refuses a call exactly when as many stamps as the limit are already
      admitted in the window that ends now. */
  lemma RefusesExactlyWhenFull(times: seq<nat>, now: nat, window: nat, limit: nat)
    requires NonDecreasing(times + [now]) && window >= 1 && limit >= 1
    ensures Admits(times + [now], |times|, window, limit)
            <==> |InWindow(Stamps(times, window, limit), now, window)| < limit
  {
    var all := times + [now];
    assert forall k :: 0 <= k < |times| ==> all[k] == times[k];
    StateIsWindow(times, window, limit);
    StampsUpTo(times, window, limit);
    StateSnoc(times, now, window, limit);
    assert Trim(State(times, window, limit), now, window) == InWindow(Stamps(times, window, limit), now, window);
  }

  /** The sliding-window bound: in every window (t - window, t], wherever it ends, the
      distinct admitted stamps are no more than the limit. */
  lemma {:induction false} WindowBound(times: seq<nat>, t: nat, window: nat, limit: nat)
    requires NonDecreasing(times) && window >= 1 && limit >= 1
    ensures |InWindow(Stamps(times, window, limit), t, window)| <= limit
  {
    if times == [] {
      assert InWindow(Stamps(times, window, limit), t, window) == {};
    } else {
      var front, now := times[..|times| - 1], times[|times| - 1];
      SnocOf(times);
      if t < now {
        WindowBound(front, t, window, limit);
        StampsSnoc(front, now, window, limit);
        assert InWindow(Stamps(times, window, limit), t, window) == InWindow(Stamps(front, window, limit), t, window);
      } else {
        StateIsWindow(times, window, limit);
        StampsUpTo(times, window, limit);
        SubsetSize(InWindow(Stamps(times, window, limit), t, window), State(times, window, limit));
      }
    }
  }

  // ------------------------------------------------- stamps and requests

  /** The admitted calls, by position, in the window that ends at t. */
  ghost function Calls(times: seq<nat>, t: nat, window: nat, limit: nat): set<nat> {
    set k | 0 <= k < |times| && Admits(times, k, window, limit) && times[k] <= t < times[k] + window
  }

  lemma {:induction false} InjectiveSize(ks: set<nat>, times: seq<nat>, image: set<nat>)
    requires forall k :: k in ks ==> k < |times| && times[k] in image
    requires forall j, k :: j in ks && k in ks && j != k ==> times[j] != times[k]
    ensures |ks| <= |image|
  {
    if ks != {} {
      var k :| k in ks;
      InjectiveSize(ks - {k}, times, image - {times[k]});
    }
  }

  /** When no two calls share a millisecond the bound is one on admitted calls. */
  lemma DistinctStampsBoundCalls(times: seq<nat>, t: nat, window: nat, limit: nat)
    requires Increasing(times) && window >= 1 && limit >= 1
    ensures |Calls(times, t, window, limit)| <= limit
  {
    WindowBound(times, t, window, limit);
    InjectiveSize(Calls(times, t, window, limit), times, InWindow(Stamps(times, window, limit), t, window));
  }

  /** n calls in one millisecond. */
  function Same(now: nat, n: nat): (times: seq<nat>)
    ensures |times| == n && forall k :: 0 <= k < n ==> times[k] == now
  {
    if n == 0 then [] else Same(now, n - 1) + [now]
  }

  lemma OneStampScript(now: nat, n: nat, members: set<nat>, window: nat, limit: nat)
    requires limit >= 2 && window >= 1 && members == if n == 0 then {} else {now}
    ensures Script(members, now, window, limit) == ({now}, true)
  {
    assert Trim(members, now, window) == members;
    assert |members| <= 1 && members + {now} == {now};
  }

  lemma SameSnoc(times: seq<nat>, all: seq<nat>, now: nat, window: nat, limit: nat)
    requires all == times + [now] && limit >= 2 && window >= 1
    requires forall k :: 0 <= k < |times| ==> Admits(times, k, window, limit)
    requires State(times, window, limit) == if times == [] then {} else {now}
    ensures State(all, window, limit) == {now} && forall k :: 0 <= k < |all| ==> Admits(all, k, window, limit)
  {
    OneStampScript(now, |times|, State(times, window, limit), window, limit);
    StateSnoc(times, now, window, limit);
    assert all[..|times|] == times;
    forall k | 0 <= k < |times| ensures Admits(all, k, window, limit) {
      AdmitsPrefix(all, k, |times|, window, limit);
    }
  }

  /** With a limit of two or more, calls in one millisecond are all admitted, however
      many: the stamp is the member, so they count as one. */
  lemma {:induction false} SameMillisecondAllAdmitted(now: nat, n: nat, window: nat, limit: nat)
    requires limit >= 2 && window >= 1
    ensures forall k :: 0 <= k < n ==> Admits(Same(now, n), k, window, limit)
    ensures State(Same(now, n), window, limit) == if n == 0 then {} else {now}
  {
    if n > 0 {
      SameMillisecondAllAdmitted(now, n - 1, window, limit);
      SameSnoc(Same(now, n - 1), Same(now, n), now, window, limit);
    }
  }

  /** With a limit of one no window holds two admitted calls, whatever they share. */
  lemma LimitOneBoundsCalls(times: seq<nat>, t: nat, window: nat)
    requires NonDecreasing(times) && window >= 1
    ensures |Calls(times, t, window, 1)| <= 1
  {
    var calls := Calls(times, t, window, 1);
    forall j, k | j in calls && k in calls ensures j == k {
      if j < k { SecondRefused(times, j, k, window); } else if k < j { SecondRefused(times, k, j, window); }
    }
    if calls != {} {
      var j :| j in calls;
      assert calls == {j};
    }
  }

  lemma SecondRefused(times: seq<nat>, j: nat, k: nat, window: nat)
    requires NonDecreasing(times) && window >= 1 && j < k < |times|
    requires Admits(times, j, window, 1) && times[k] < times[j] + window
    ensures !Admits(times, k, window, 1)
  {
    var front := times[..k];
    assert times[..k + 1] == front + [times[k]];
    AdmitsPrefix(times, k, k + 1, window, 1);
    AdmitsPrefix(times, j, k, window, 1);
    assert front[j] == times[j];
    assert times[j] in InWindow(Stamps(front, window, 1), times[k], window);
    SubsetSize({times[j]}, InWindow(Stamps(front, window, 1), times[k], window));
    RefusesExactlyWhenFull(front, times[k], window, 1);
  }

  ghost predicate BoundsCalls(window: nat, limit: nat) {
    forall times, t :: NonDecreasing(times) ==> |Calls(times, t, window, limit)| <= limit
  }

  /** The script bounds admitted calls on every run whose clock does not go back if and
      only if the limit is one. */
  lemma BoundsCallsOnlyForOne(window: nat, limit: nat)
    requires window >= 1 && limit >= 1
    ensures BoundsCalls(window, limit) <==> limit == 1
  {
    if limit == 1 {
      forall times, t | NonDecreasing(times) ensures |Calls(times, t, window, limit)| <= limit {
        LimitOneBoundsCalls(times, t, window);
      }
    } else {
      var n := limit + 1;
      var times := Same(0, n);
      SameMillisecondAllAdmitted(0, n, window, limit);
      var calls := Calls(times, 0, window, limit);
      AllBelow(calls, n);
      assert NonDecreasing(times);
    }
  }

  lemma {:induction false} AllBelow(s: set<nat>, n: nat)
    requires forall k :: 0 <= k < n ==> k in s
    ensures |s| >= n
  {
    if n > 0 {
      AllBelow(s - {n - 1}, n - 1);
    }
  }

  // ----------------------------------------------------- clocks that go back

  /** A window of this many milliseconds holds no more distinct ones. */
  lemma {:induction false} WindowSize(stamps: set<nat>, t: nat, window: nat)
    ensures |InWindow(stamps, t, window)| <= window
  {
    var all := InWindow(stamps, t, window);
    if window == 0 {
      assert all == {};
    } else {
      WindowSize(stamps, t, window - 1);
      var first := t - window + 1;
      SubsetSize(all, InWindow(stamps, t, window - 1) + if first >= 0 then {first} else {});
    }
  }

  /** With a limit of one, whatever the clocks: the set holds the greatest admitted stamp,
      and any two of them are at least a window apart. */
  ghost predicate Apart(members: set<nat>, stamps: set<nat>, window: nat) {
    && (forall a, b :: a in stamps && b in stamps && a < b ==> a + window <= b)
    && (stamps == {} ==> members == {})
    && (stamps != {} ==> exists last :: last in stamps && members == {last} && forall m :: m in stamps ==> m <= last)
  }

  /** The call after a last admitted stamp: refused within a window of it, else admitted. */
  lemma ScriptAfter(last: nat, now: nat, window: nat)
    ensures Script({last}, now, window, 1) == if last + window > now then ({last}, false) else ({now}, true)
  {
    assert Trim({last}, now, window) == if last + window > now then {last} else {};
    assert {} + {now} == {now};
  }

  lemma ScriptFirst(now: nat, window: nat)
    ensures Script({}, now, window, 1) == ({now}, true)
  {
    assert Trim({}, now, window) == {};
    assert {} + {now} == {now};
  }

  lemma OneMoreApart(members: set<nat>, stamps: set<nat>, now: nat, window: nat)
    requires Apart(members, stamps, window) && window >= 1
    ensures var (members', admitted) := Script(members, now, window, 1);
            Apart(members', stamps + if admitted then {now} else {}, window)
  {
    if stamps == {} {
      ScriptFirst(now, window);
    } else {
      var last :| last in stamps && members == {last} && forall m :: m in stamps ==> m <= last;
      ScriptAfter(last, now, window);
    }
  }

  lemma {:induction false} LimitOneApart(times: seq<nat>, window: nat)
    requires window >= 1
    ensures Apart(State(times, window, 1), Stamps(times, window, 1), window)
  {
    if times != [] {
      var front, now := times[..|times| - 1], times[|times| - 1];
      SnocOf(times);
      LimitOneApart(front, window);
      Longer(front, now, times, window, 1);
      OneMoreApart(State(front, window, 1), Stamps(front, window, 1), now, window);
    } else {
      NoCalls(window, 1);
    }
  }

  lemma LimitOneBoundsStamps(times: seq<nat>, t: nat, window: nat)
    requires window >= 1
    ensures |InWindow(Stamps(times, window, 1), t, window)| <= 1
  {
    LimitOneApart(times, window);
    var all := InWindow(Stamps(times, window, 1), t, window);
    if all != {} {
      var m :| m in all;
      assert all == {m};
    }
  }

  /** Calls at 0, 1, ..., n - 1. */
  function Ramp(n: nat): (times: seq<nat>)
    ensures |times| == n
  {
    if n == 0 then [] else Ramp(n - 1) + [n - 1]
  }

  function Below(n: nat): (s: set<nat>)
    ensures |s| == n && forall k :: k in s <==> 0 <= k < n
  {
    if n == 0 then {} else Below(n - 1) + {n - 1}
  }

  lemma FillScript(n: nat, window: nat, limit: nat)
    requires n < limit < window
    ensures Script(Below(n), n, window, limit) == (Below(n + 1), true)
  {
    assert Trim(Below(n), n, window) == Below(n);
    assert Below(n) + {n} == Below(n + 1);
  }

  /** Up to the limit they are all admitted. */
  lemma {:induction false} RampFills(n: nat, window: nat, limit: nat)
    requires n <= limit < window
    ensures State(Ramp(n), window, limit) == Below(n) && Stamps(Ramp(n), window, limit) == Below(n)
  {
    if n == 0 {
      NoCalls(window, limit);
    } else {
      RampFills(n - 1, window, limit);
      FillScript(n - 1, window, limit);
      Longer(Ramp(n - 1), n - 1, Ramp(n), window, limit);
    }
  }

  lemma BackScripts(window: nat, limit: nat)
    requires 2 <= limit < window
    ensures Script(Below(limit), 2 * window, window, limit) == ({2 * window}, true)
    ensures Script({2 * window}, limit, window, limit).1
  {
    assert Trim(Below(limit), 2 * window, window) == {};
    assert {} + {2 * window} == {2 * window};
    assert Trim({2 * window}, limit, window) == {2 * window};
  }

  lemma GoingBack(times: seq<nat>, ahead: seq<nat>, back: seq<nat>, window: nat, limit: nat)
    requires 2 <= limit < window && ahead == times + [2 * window] && back == ahead + [limit]
    requires State(times, window, limit) == Below(limit)
    ensures Stamps(back, window, limit) == Stamps(times, window, limit) + {2 * window} + {limit}
  {
    BackScripts(window, limit);
    Longer(times, 2 * window, ahead, window, limit);
    Longer(ahead, limit, back, window, limit);
  }

  lemma FullWindow(stamps: set<nat>, window: nat, limit: nat)
    requires limit < window && stamps == Below(limit) + {2 * window} + {limit}
    ensures |InWindow(stamps, limit, window)| > limit
  {
    var all := Below(limit + 1);
    assert |all| == limit + 1;
    forall m | m in all ensures m in InWindow(stamps, limit, window) {
      assert m in Below(limit) + {limit};
    }
    SubsetSize(all, InWindow(stamps, limit, window));
  }

  /** Then one call far ahead empties the set, and one by a clock that has gone back is
      admitted on top of a full window. */
  lemma ClockBack(times: seq<nat>, ahead: seq<nat>, back: seq<nat>, window: nat, limit: nat)
    requires 2 <= limit < window && ahead == times + [2 * window] && back == ahead + [limit]
    requires State(times, window, limit) == Below(limit) && Stamps(times, window, limit) == Below(limit)
    ensures |InWindow(Stamps(back, window, limit), limit, window)| > limit
  {
    GoingBack(times, ahead, back, window, limit);
    FullWindow(Stamps(back, window, limit), window, limit);
  }

  ghost predicate BoundsStamps(window: nat, limit: nat) {
    forall times, t :: |InWindow(Stamps(times, window, limit), t, window)| <= limit
  }

  /** Over all clocks, also those that go back (another gateway's, say), the distinct
      admitted stamps of every window are bounded by the limit if and only if the limit
      is one or no window has more milliseconds than it. */
  lemma BoundsStampsOnAllClocks(window: nat, limit: nat)
    requires window >= 1 && limit >= 1
    ensures BoundsStamps(window, limit) <==> limit == 1 || limit >= window
  {
    if limit == 1 {
      forall times, t ensures |InWindow(Stamps(times, window, limit), t, window)| <= limit {
        LimitOneBoundsStamps(times, t, window);
      }
    } else if limit >= window {
      forall times, t ensures |InWindow(Stamps(times, window, limit), t, window)| <= limit {
        WindowSize(Stamps(times, window, limit), t, window);
      }
    } else {
      var times := Ramp(limit);
      var ahead := times + [2 * window];
      var back := ahead + [limit];
      RampFills(limit, window, limit);
      ClockBack(times, ahead, back, window, limit);
    }
  }

  // ------------------------------------------------------------ key expiry

  /** The key in Redis: its members, and when PEXPIRE lets it go. */
  datatype Key = Key(members: set<nat>, deadline: nat)

  /** One call, and whether Redis had dropped the key before it, which it may do once
      the deadline has come. */
  datatype Call = Call(now: nat, dropped: bool)

  function Seen(k: Key, c: Call): set<nat> {
    if c.dropped && k.deadline <= c.now then {} else k.members
  }

  /** The script with PEXPIRE key window. */
  function ScriptWithExpiry(k: Key, c: Call, window: nat, limit: nat): (Key, bool) {
    var (members, admitted) := Script(Seen(k, c), c.now, window, limit);
    (Key(members, if admitted then c.now + window else k.deadline), admitted)
  }

  function KeyAfter(calls: seq<Call>, window: nat, limit: nat): Key {
    if calls == [] then Key({}, 0)
    else ScriptWithExpiry(KeyAfter(calls[..|calls| - 1], window, limit), calls[|calls| - 1], window, limit).0
  }

  function Times(calls: seq<Call>): (times: seq<nat>)
    ensures |times| == |calls| && forall k :: 0 <= k < |calls| ==> times[k] == calls[k].now
  {
    if calls == [] then [] else [calls[0].now] + Times(calls[1..])
  }

  predicate AnswersYes(calls: seq<Call>, k: nat, window: nat, limit: nat)
    requires k < |calls|
  {
    ScriptWithExpiry(KeyAfter(calls[..k], window, limit), calls[k], window, limit).1
  }

  ghost predicate OnTime(calls: seq<Call>) {
    forall j, k :: 0 <= j < k < |calls| ==> calls[j].now <= calls[k].now
  }

  lemma OneExpiryCall(k: Key, c: Call, members: set<nat>, window: nat, limit: nat)
    requires k.members == members && forall m :: m in members ==> m <= c.now && m + window <= k.deadline
    ensures var (k', admitted) := ScriptWithExpiry(k, c, window, limit);
            && (k'.members, admitted) == Script(members, c.now, window, limit)
            && forall m :: m in k'.members ==> m <= c.now && m + window <= k'.deadline
  {
    assert Trim(Seen(k, c), c.now, window) == Trim(members, c.now, window);
  }

  lemma {:induction false} ExpiryKeepsState(calls: seq<Call>, window: nat, limit: nat)
    requires OnTime(calls)
    ensures var k := KeyAfter(calls, window, limit);
            && k.members == State(Times(calls), window, limit)
            && forall m :: m in k.members ==> m + window <= k.deadline && calls != [] && m <= calls[|calls| - 1].now
  {
    if calls != [] {
      var front, c := calls[..|calls| - 1], calls[|calls| - 1];
      TimesPrefix(calls, |front|);
      ExpiryKeepsState(front, window, limit);
      OneExpiryCall(KeyAfter(front, window, limit), c, State(Times(front), window, limit), window, limit);
    }
  }

  lemma TimesPrefix(calls: seq<Call>, k: nat)
    requires k <= |calls|
    ensures Times(calls)[..k] == Times(calls[..k])
  {
  }

  lemma OneMore(front: seq<Call>, c: Call, window: nat, limit: nat)
    ensures var (k, admitted) := ScriptWithExpiry(KeyAfter(front, window, limit), c, window, limit);
            KeyAfter(front + [c], window, limit) == k && AnswersYes(front + [c], |front|, window, limit) == admitted
  {
    assert (front + [c])[..|front|] == front;
  }

  lemma SameAnswer(front: seq<Call>, c: Call, window: nat, limit: nat)
    requires OnTime(front) && forall j :: 0 <= j < |front| ==> front[j].now <= c.now
    ensures ScriptWithExpiry(KeyAfter(front, window, limit), c, window, limit).1
         == Script(State(Times(front), window, limit), c.now, window, limit).1
  {
    ExpiryKeepsState(front, window, limit);
    OneExpiryCall(KeyAfter(front, window, limit), c, State(Times(front), window, limit), window, limit);
  }

  /** The expiry of the key cannot be observed: on a clock that does not go back the
      script with PEXPIRE, however late Redis drops the key, answers every call as the
      script that only trims. */
  lemma ExpiryIsUnobservable(calls: seq<Call>, k: nat, window: nat, limit: nat)
    requires OnTime(calls) && k < |calls|
    ensures AnswersYes(calls, k, window, limit) <==> Admits(Times(calls), k, window, limit)
  {
    TimesPrefix(calls, k);
    SameAnswer(calls[..k], calls[k], window, limit);
  }

  /** The script of the next call admits it exactly when the window that ends now has
      room, expiry or not. */
  lemma RoomDecides(before: seq<Call>, c: Call, window: nat, limit: nat)
    requires OnTime(before) && (forall j :: 0 <= j < |before| ==> before[j].now <= c.now) && window >= 1 && limit >= 1
    ensures ScriptWithExpiry(KeyAfter(before, window, limit), c, window, limit).1
            <==> |InWindow(Stamps(Times(before), window, limit), c.now, window)| < limit
  {
    SameAnswer(before, c, window, limit);
    StateSnoc(Times(before), c.now, window, limit);
    RefusesExactlyWhenFull(Times(before), c.now, window, limit);
  }
}
