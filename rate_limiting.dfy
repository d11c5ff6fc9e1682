/**
 * The client-side sliding-window rate limiter: for every endpoint path it keeps
 * the timestamps (in milliseconds) of recent requests, prunes those older than
 * the endpoint's window, and admits a request while fewer than the endpoint's
 * maximum remain. The current time is a parameter of every operation.
 */
module RateLimiting {
  import opened Common
  import opened JsStrings

  datatype LimitConfig = LimitConfig(maxRequests: nat, windowMs: nat)

  /** The specific limits, in the order `Object.entries` lists them. */
  const Patterns: seq<(string, LimitConfig)> := [
    ("/api/auth/validar", LimitConfig(10, 60000)),
    ("/api/asistencias", LimitConfig(30, 60000)),
    ("/api/subalmacenes", LimitConfig(20, 60000)),
    ("/api/almacenes", LimitConfig(20, 60000))
  ]

  const DefaultConfig := LimitConfig(50, 60000)

  /** Index of the first pattern contained in the endpoint, or |Patterns| when none is. */
  function FirstPattern(endpoint: string, from: nat): (i: nat)
    requires from <= |Patterns|
    ensures from <= i <= |Patterns|
    ensures i < |Patterns| ==> Contains(endpoint, Patterns[i].0)
    ensures forall k :: from <= k < i ==> !Contains(endpoint, Patterns[k].0)
    decreases |Patterns| - from
  {
    if from == |Patterns| || Contains(endpoint, Patterns[from].0) then from
    else FirstPattern(endpoint, from + 1)
  }

  /** The configuration that applies to an endpoint: the first specific pattern it contains, else the default. */
  function LimitFor(endpoint: string): (c: LimitConfig)
    ensures (exists k :: 0 <= k < |Patterns| && Contains(endpoint, Patterns[k].0)) ==>
              exists k :: 0 <= k < |Patterns| && Contains(endpoint, Patterns[k].0) && c == Patterns[k].1
                          && forall j :: 0 <= j < k ==> !Contains(endpoint, Patterns[j].0)
    ensures (forall k :: 0 <= k < |Patterns| ==> !Contains(endpoint, Patterns[k].0)) ==> c == DefaultConfig
    ensures c.windowMs == 60000 && 10 <= c.maxRequests <= 50
  {
    var i := FirstPattern(endpoint, 0);
    if i < |Patterns| then Patterns[i].1 else DefaultConfig
  }

  /** The endpoints of the limits table get their own configuration. */
  lemma ListedEndpointsGetTheirLimit()
    ensures LimitFor("/api/auth/validar") == LimitConfig(10, 60000)
    ensures LimitFor("/api/almacenes") == LimitConfig(20, 60000)
    ensures LimitFor("/api/otros") == DefaultConfig
  {
    ContainsSelf("/api/auth/validar");
    ContainsSelf("/api/almacenes");
    NotContainedLonger("/api/almacenes", "/api/auth/validar");
    NotContainedLonger("/api/almacenes", "/api/asistencias");
    NotContainedLonger("/api/almacenes", "/api/subalmacenes");
    assert FirstPattern("/api/almacenes", 0) == 3;
    NotContainedLonger("/api/otros", "/api/auth/validar");
    NotContainedLonger("/api/otros", "/api/asistencias");
    NotContainedLonger("/api/otros", "/api/subalmacenes");
    NotContainedLonger("/api/otros", "/api/almacenes");
    assert FirstPattern("/api/otros", 0) == 4;
  }

  lemma ContainsSelf(s: string)
    ensures Contains(s, s)
  {
    assert s <= s[0..];
  }

  lemma NotContainedLonger(s: string, p: string)
    requires |p| > |s|
    ensures !Contains(s, p)
  {
  }

  /** The timestamps still inside the window: `times.filter(t => now - t < windowMs)`. */
  function Prune(times: seq<int>, now: int, windowMs: nat): (r: seq<int>)
    ensures forall i :: 0 <= i < |r| ==> now - r[i] < windowMs && r[i] in times
    ensures forall i :: 0 <= i < |times| && now - times[i] < windowMs ==> times[i] in r
    ensures |r| <= |times|
  {
    Filter(times, t => now - t < windowMs)
  }

  /** Pruning twice at the same instant is pruning once. */
  lemma PruneIdempotent(times: seq<int>, now: int, windowMs: nat)
    ensures Prune(Prune(times, now, windowMs), now, windowMs) == Prune(times, now, windowMs)
  {
    FilterAll(Prune(times, now, windowMs), t => now - t < windowMs);
  }

  /** Pruning distributes over an appended timestamp. */
  lemma PruneAppend(times: seq<int>, t: int, now: int, windowMs: nat)
    ensures Prune(times + [t], now, windowMs)
            == Prune(times, now, windowMs) + (if now - t < windowMs then [t] else [])
  {
    FilterConcat(times, [t], u => now - u < windowMs);
    assert [t][1..] == [];
  }

  function Min(s: seq<int>): (m: int)
    requires s != []
    ensures m in s && forall i :: 0 <= i < |s| ==> m <= s[i]
    decreases |s|
  {
    if |s| == 1 then s[0]
    else
      var m := Min(s[1..]);
      assert forall i :: 1 <= i < |s| ==> s[i] == s[1..][i - 1];
      if s[0] <= m then s[0] else m
  }

  datatype Decision = Decision(allowed: bool, waitTime: int)

  /** The verdict on the pruned timestamps: denied at the maximum, with the time until the oldest leaves the window. */
  function Decide(valid: seq<int>, now: int, config: LimitConfig): (d: Decision)
    ensures d.allowed <==> |valid| < config.maxRequests
    ensures d.allowed ==> d.waitTime == 0
    ensures !d.allowed && valid != [] ==> d.waitTime == config.windowMs - (now - Min(valid))
  {
    if |valid| >= config.maxRequests && valid != [] then
      Decision(false, config.windowMs - (now - Min(valid)))
    else if |valid| >= config.maxRequests then Decision(false, config.windowMs)
    else Decision(true, 0)
  }

  /** A denial waits more than nothing and at most one window, when no timestamp lies in the future. */
  lemma WaitTimeWithinWindow(times: seq<int>, now: int, config: LimitConfig)
    requires forall i :: 0 <= i < |times| ==> times[i] <= now
    requires config.maxRequests > 0
    ensures var d := Decide(Prune(times, now, config.windowMs), now, config);
            !d.allowed ==> 0 < d.waitTime <= config.windowMs
  {
    var valid := Prune(times, now, config.windowMs);
    if valid != [] {
      var m := Min(valid);
      assert m in times;
    }
  }

  /** What `getStats` reports for one endpoint. */
  datatype Stat = Stat(current: nat, limit: nat, windowMs: nat, usage: string)

  function StatOf(endpoint: string, times: seq<int>, now: int): (s: Stat)
    ensures s.current == |Prune(times, now, LimitFor(endpoint).windowMs)|
    ensures s.limit == LimitFor(endpoint).maxRequests && s.windowMs == LimitFor(endpoint).windowMs
    ensures s.usage == NatToString(s.current) + "/" + NatToString(s.limit)
  {
    var config := LimitFor(endpoint);
    var current := |Prune(times, now, config.windowMs)|;
    Stat(current, config.maxRequests, config.windowMs, NatToString(current) + "/" + NatToString(config.maxRequests))
  }

  class RateLimiter {
    /** endpoint -> timestamps of its recent requests */
    var requests: map<string, seq<int>>

    constructor()
      ensures requests == map[]
    {
      requests := map[];
    }

    function Times(endpoint: string): seq<int>
      reads this
    {
      if endpoint in requests then requests[endpoint] else []
    }

    /** `getLimitConfig(endpoint)`: scan the table for the first pattern the endpoint contains. */
    method GetLimitConfig(endpoint: string) returns (config: LimitConfig)
      ensures config == LimitFor(endpoint)
    {
      var i := 0;
      while i < |Patterns|
        invariant 0 <= i <= |Patterns|
        invariant FirstPattern(endpoint, 0) == FirstPattern(endpoint, i)
      {
        if Contains(endpoint, Patterns[i].0) {
          return Patterns[i].1;
        }
        i := i + 1;
      }
      return DefaultConfig;
    }

    /** `canMakeRequest(endpoint)`: store the pruned list, then admit below the maximum. */
    method CanMakeRequest(endpoint: string, now: int) returns (allowed: bool, waitTime: int)
      modifies this
      ensures requests == old(requests)[endpoint := Prune(old(Times(endpoint)), now, LimitFor(endpoint).windowMs)]
      ensures Decision(allowed, waitTime) == Decide(Times(endpoint), now, LimitFor(endpoint))
    {
      var config := GetLimitConfig(endpoint);
      if endpoint !in requests {
        requests := requests[endpoint := []];
      }
      var valid := Prune(requests[endpoint], now, config.windowMs);
      requests := requests[endpoint := valid];
      if |valid| >= config.maxRequests {
        var oldest := Min(valid);
        return false, config.windowMs - (now - oldest);
      }
      return true, 0;
    }

    /** `recordRequest(endpoint)`: append the current time, then keep only the timestamps in the window. */
    method RecordRequest(endpoint: string, now: int)
      modifies this
      ensures requests == old(requests)[endpoint := Prune(old(Times(endpoint)) + [now], now, LimitFor(endpoint).windowMs)]
    {
      if endpoint !in requests {
        requests := requests[endpoint := []];
      }
      var times := requests[endpoint] + [now];
      var config := GetLimitConfig(endpoint);
      var valid := Prune(times, now, config.windowMs);
      requests := requests[endpoint := valid];
    }

    /**
     * The bookkeeping of `rateLimitedFetch` once a slot is granted: record the request and,
     * when the server answers 429, record it five more times as a penalty.
     * All records carry the same instant `now`.
     */
    method RecordResponse(endpoint: string, now: int, status: int)
      modifies this
      ensures var before := Prune(old(Times(endpoint)), now, LimitFor(endpoint).windowMs);
              requests == old(requests)[endpoint := before + Repeat(now, if status == 429 then 6 else 1)]
    {
      ghost var w := LimitFor(endpoint).windowMs;
      ghost var before := Prune(Times(endpoint), now, w);
      PruneIdempotent(Times(endpoint), now, w);
      PenaltyStep(Times(endpoint), before, 0, now, w);
      RecordRequest(endpoint, now);
      if status == 429 {
        for i := 0 to 5
          invariant requests == old(requests)[endpoint := before + Repeat(now, i + 1)]
        {
          PenaltyStep(Times(endpoint), before, i + 1, now, w);
          RecordRequest(endpoint, now);
        }
      }
    }

    /** `clear()`: forget every endpoint. */
    method Clear()
      modifies this
      ensures requests == map[]
    {
      requests := map[];
    }

    /** `getStats()`: for each endpoint seen, its in-window count and limits, computed at `now`. */
    method GetStats(now: int) returns (stats: map<string, Stat>)
      ensures stats.Keys == requests.Keys
      ensures forall e :: e in stats ==> stats[e] == StatOf(e, requests[e], now)
    {
      stats := map[];
      var remaining := requests.Keys;
      while remaining != {}
        invariant remaining <= requests.Keys
        invariant stats.Keys == requests.Keys - remaining
        invariant forall e :: e in stats ==> stats[e] == StatOf(e, requests[e], now)
        decreases remaining
      {
        var e :| e in remaining;
        var config := GetLimitConfig(e);
        var valid := Prune(requests[e], now, config.windowMs);
        stats := stats[e := Stat(|valid|, config.maxRequests, config.windowMs,
                                 NatToString(|valid|) + "/" + NatToString(config.maxRequests))];
        remaining := remaining - {e};
      }
    }
  }

  /** `n` copies of `t`. */
  function Repeat(t: int, n: nat): (r: seq<int>)
    ensures |r| == n && forall i :: 0 <= i < n ==> r[i] == t
  {
    seq(n, _ => t)
  }

  /** Pruning at `now` keeps an already-pruned list followed by timestamps equal to `now`. */
  lemma PruneKeepsRecent(valid: seq<int>, recent: seq<int>, now: int, windowMs: nat)
    requires valid == Prune(valid, now, windowMs)
    requires windowMs > 0 && forall i :: 0 <= i < |recent| ==> recent[i] == now
    ensures Prune(valid + recent, now, windowMs) == valid + recent
  {
    var all := valid + recent;
    forall i | 0 <= i < |all| ensures now - all[i] < windowMs {
      if i < |valid| {
        assert all[i] == valid[i];
      }
    }
    FilterAll(all, t => now - t < windowMs);
  }

  /** One more record at `now` after `k` of them adds one more in-window timestamp. */
  lemma PenaltyStep(times: seq<int>, before: seq<int>, k: nat, now: int, windowMs: nat)
    requires before == Prune(before, now, windowMs) && windowMs > 0
    requires k == 0 ==> before == Prune(times, now, windowMs)
    requires k > 0 ==> times == before + Repeat(now, k)
    ensures Prune(times + [now], now, windowMs) == before + Repeat(now, k + 1)
  {
    PruneAppend(times, now, now, windowMs);
    if k > 0 {
      PruneKeepsRecent(before, Repeat(now, k), now, windowMs);
    }
    assert Repeat(now, k) + [now] == Repeat(now, k + 1);
  }
}
