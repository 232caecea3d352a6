/**
 The sliding-window limiter of the public endpoints (services/basalt_rate_limit.py).
 A key is an endpoint and a client; the clock is monotonic, in seconds.
 */
module RateLimiter {

  datatype Call = Call(key: string, at: real, admitted: bool)

  /** The times that lie less than a window back. */
  function Recent(times: seq<real>, now: real, window: real): seq<real> {
    if times == [] then []
    else
      var t, r := times[|times|-1], Recent(times[..|times|-1], now, window);
      if now - t < window then r + [t] else r
  }

  /** When calls of `key` were admitted. */
  function Admitted(log: seq<Call>, key: string): seq<real> {
    if log == [] then []
    else
      var c, r := log[|log|-1], Admitted(log[..|log|-1], key);
      if c.key == key && c.admitted then r + [c.at] else r
  }

  /** Each call was rejected exactly when `max` calls of its key had been admitted within the last window. */
  ghost predicate Faithful(log: seq<Call>, max: nat, window: real) {
    log != [] ==>
      var init, c := log[..|log|-1], log[|log|-1];
      && Faithful(init, max, window)
      && (!c.admitted <==> |Recent(Admitted(init, c.key), c.at, window)| >= max)
  }

  ghost predicate Monotone(log: seq<Call>) {
    forall i, j | 0 <= i < j < |log| :: log[i].at <= log[j].at
  }

  /** The log of every limiter, up to some moment. */
  ghost predicate IsRun(log: seq<Call>, max: nat, window: real) {
    Faithful(log, max, window) && Monotone(log)
  }

  // ----- the limiter -----------------------------------------------------------------

  /** The bucket may have dropped times, but none that is still recent, now or later. */
  ghost predicate Agrees(bucket: seq<real>, times: seq<real>, since: seq<Call>, window: real) {
    forall now: real | NotBefore(since, now) :: Recent(bucket, now, window) == Recent(times, now, window)
  }

  ghost predicate NotBefore(log: seq<Call>, now: real) {
    forall i | 0 <= i < |log| :: log[i].at <= now
  }

  function Bucket(buckets: map<string, seq<real>>, key: string): seq<real> {
    if key in buckets then buckets[key] else []
  }

  ghost predicate OthersKept(buckets: map<string, seq<real>>, buckets': map<string, seq<real>>, key: string) {
    forall other | other != key :: Bucket(buckets', other) == Bucket(buckets, other)
  }

  ghost predicate Serves(buckets: map<string, seq<real>>, log: seq<Call>, window: real) {
    forall key :: Agrees(Bucket(buckets, key), Admitted(log, key), log, window)
  }

  class Limiter {
    const maxRequests: nat
    const windowSeconds: real
    var buckets: map<string, seq<real>>
    ghost var log: seq<Call>

    ghost predicate Valid()
      reads this
    {
      && IsRun(log, maxRequests, windowSeconds)
      && Serves(buckets, log, windowSeconds)
    }

    constructor (max: nat, window: real)
      ensures Valid() && log == [] && maxRequests == max && windowSeconds == window
    {
      maxRequests, windowSeconds := max, window;
      buckets, log := map[], [];
    }

    /** The comprehension over a bucket. */
    method Prune(bucket: seq<real>, now: real) returns (hits: seq<real>)
      ensures hits == Recent(bucket, now, windowSeconds)
    {
      hits := [];
      for k := 0 to |bucket|
        invariant hits == Recent(bucket[..k], now, windowSeconds)
      {
        assert bucket[..k+1][..k] == bucket[..k];
        if now - bucket[k] < windowSeconds {
          hits := hits + [bucket[k]];
        }
      }
      assert bucket[..|bucket|] == bucket;
    }

    method Check(key: string, now: real) returns (ok: bool)
      requires Valid() && NotBefore(log, now)
      modifies this
      ensures Valid()
      ensures log == old(log) + [Call(key, now, ok)]
      ensures ok <==> |AdmittedSince(old(log), key, now, windowSeconds)| < maxRequests
      ensures OthersKept(old(buckets), buckets, key)
    {
      if key !in buckets {
        ServesEmpty(buckets, key, log, windowSeconds);
        buckets := buckets[key := []];
      }
      var hits := Prune(buckets[key], now);
      ok := |hits| < maxRequests;
      CheckKeeps(buckets, log, Call(key, now, ok), maxRequests, windowSeconds);
      RecentCounts(log, key, now, windowSeconds);
      if ok {
        hits := hits + [now];
        buckets := buckets[key := hits];
      }
      log := log + [Call(key, now, ok)];
    }
  }

  /** An empty bucket is as good as none. */
  lemma ServesEmpty(buckets: map<string, seq<real>>, key: string, log: seq<Call>, window: real)
    requires Serves(buckets, log, window) && key !in buckets
    ensures Serves(buckets[key := []], log, window)
  {
    var buckets' := buckets[key := []];
    forall other
      ensures Agrees(Bucket(buckets', other), Admitted(log, other), log, window)
    {
      assert Bucket(buckets', other) == Bucket(buckets, other);
    }
  }

  lemma HitsAreRecent(buckets: map<string, seq<real>>, log: seq<Call>, key: string, now: real, window: real)
    requires Serves(buckets, log, window) && NotBefore(log, now)
    ensures Recent(Bucket(buckets, key), now, window) == Recent(Admitted(log, key), now, window)
  {
    assert Agrees(Bucket(buckets, key), Admitted(log, key), log, window);
  }

  lemma ServesStill(buckets: map<string, seq<real>>, log: seq<Call>, c: Call, window: real)
    requires Serves(buckets, log, window) && NotBefore(log, c.at)
    ensures var buckets' := if c.admitted then buckets[c.key := Recent(Bucket(buckets, c.key), c.at, window) + [c.at]] else buckets;
            Serves(buckets', log + [c], window)
  {
    forall key
      ensures Agrees(if c.key == key && c.admitted then Recent(Bucket(buckets, key), c.at, window) + [c.at]
                     else Bucket(buckets, key),
                     Admitted(log + [c], key), log + [c], window)
    {
      AgreesStill(Bucket(buckets, key), log, key, c, window);
    }
  }

  lemma CheckKeeps(buckets: map<string, seq<real>>, log: seq<Call>, c: Call, max: nat, window: real)
    requires IsRun(log, max, window) && Serves(buckets, log, window) && NotBefore(log, c.at)
    requires c.admitted <==> |Recent(Bucket(buckets, c.key), c.at, window)| < max
    ensures IsRun(log + [c], max, window)
    ensures !c.admitted ==> Serves(buckets, log + [c], window)
    ensures c.admitted ==>
              Serves(buckets[c.key := Recent(Bucket(buckets, c.key), c.at, window) + [c.at]], log + [c], window)
    ensures c.admitted <==> |Recent(Admitted(log, c.key), c.at, window)| < max
  {
    HitsAreRecent(buckets, log, c.key, c.at, window);
    RunGrows(log, c, max, window);
    ServesStill(buckets, log, c, window);
  }

  lemma RunGrows(log: seq<Call>, c: Call, max: nat, window: real)
    requires IsRun(log, max, window) && NotBefore(log, c.at)
    requires c.admitted <==> |Recent(Admitted(log, c.key), c.at, window)| < max
    ensures IsRun(log + [c], max, window)
  {
    assert (log + [c])[..|log|] == log;
  }

  lemma {:induction false} RecentTwice(times: seq<real>, now: real, later: real, window: real)
    requires now <= later
    ensures Recent(Recent(times, now, window), later, window) == Recent(times, later, window)
  {
    if times != [] {
      var init, t := times[..|times|-1], times[|times|-1];
      RecentTwice(init, now, later, window);
      RecentSnoc(Recent(init, now, window), t, later, window);
    }
  }

  lemma RecentSnoc(times: seq<real>, t: real, now: real, window: real)
    ensures Recent(times + [t], now, window) ==
              if now - t < window then Recent(times, now, window) + [t] else Recent(times, now, window)
  {
    assert (times + [t])[..|times|] == times;
  }

  lemma AgreesStill(bucket: seq<real>, log: seq<Call>, key: string, c: Call, window: real)
    requires NotBefore(log, c.at) && Agrees(bucket, Admitted(log, key), log, window)
    ensures Agrees(if c.key == key && c.admitted then Recent(bucket, c.at, window) + [c.at] else bucket,
                   Admitted(log + [c], key), log + [c], window)
  {
    var log' := log + [c];
    assert log'[..|log|] == log;
    forall now: real | NotBefore(log', now)
      ensures Recent(if c.key == key && c.admitted then Recent(bucket, c.at, window) + [c.at] else bucket, now, window)
              == Recent(Admitted(log', key), now, window)
    {
      assert log'[|log|] == c;
      assert NotBefore(log, now) by {
        assert forall i | 0 <= i < |log| :: log'[i] == log[i];
      }
      if c.key == key && c.admitted {
        RecentTwice(bucket, c.at, now, window);
        RecentSnoc(Recent(bucket, c.at, window), c.at, now, window);
        RecentSnoc(Admitted(log, key), c.at, now, window);
      }
    }
  }

  // ----- what holds over every run --------------------------------------------------

  /** The times from `start` up to, but not including, `start + window`. */
  function InSpan(times: seq<real>, start: real, window: real): seq<real> {
    if times == [] then []
    else
      var t, r := times[|times|-1], InSpan(times[..|times|-1], start, window);
      if start <= t < start + window then r + [t] else r
  }

  lemma {:induction false} SpanIsRecent(times: seq<real>, start: real, now: real, window: real)
    requires now < start + window
    ensures |InSpan(times, start, window)| <= |Recent(times, now, window)|
  {
    if times != [] {
      SpanIsRecent(times[..|times|-1], start, now, window);
    }
  }

  /** The calls of `key` admitted from `start` up to, but not including, `start + window`. */
  ghost function AdmittedWithin(log: seq<Call>, key: string, start: real, window: real): set<nat> {
    set i: nat | i < |log| && log[i].key == key && log[i].admitted && start <= log[i].at < start + window
  }

  /** The calls of `key` admitted less than a window before `now`. */
  ghost function AdmittedSince(log: seq<Call>, key: string, now: real, window: real): set<nat> {
    set i: nat | i < |log| && log[i].key == key && log[i].admitted && now - log[i].at < window
  }

  lemma {:induction false} SpanCounts(log: seq<Call>, key: string, start: real, window: real)
    ensures |InSpan(Admitted(log, key), start, window)| == |AdmittedWithin(log, key, start, window)|
  {
    if log != [] {
      var init, c := log[..|log|-1], log[|log|-1];
      SpanCounts(init, key, start, window);
      SpanSnoc(Admitted(init, key), c.at, start, window);
      WithinSnoc(init, c, key, start, window);
      assert log == init + [c];
    }
  }

  lemma WithinSnoc(log: seq<Call>, c: Call, key: string, start: real, window: real)
    ensures |AdmittedWithin(log + [c], key, start, window)| ==
            |AdmittedWithin(log, key, start, window)| + if c.key == key && c.admitted && start <= c.at < start + window then 1 else 0
  {
    var within := AdmittedWithin(log, key, start, window);
    if c.key == key && c.admitted && start <= c.at < start + window {
      assert AdmittedWithin(log + [c], key, start, window) == within + {|log|};
    } else {
      assert AdmittedWithin(log + [c], key, start, window) == within;
    }
  }

  lemma SinceSnoc(log: seq<Call>, c: Call, key: string, now: real, window: real)
    ensures |AdmittedSince(log + [c], key, now, window)| ==
            |AdmittedSince(log, key, now, window)| + if c.key == key && c.admitted && now - c.at < window then 1 else 0
  {
    var since := AdmittedSince(log, key, now, window);
    if c.key == key && c.admitted && now - c.at < window {
      assert AdmittedSince(log + [c], key, now, window) == since + {|log|};
    } else {
      assert AdmittedSince(log + [c], key, now, window) == since;
    }
  }

  lemma SpanSnoc(times: seq<real>, t: real, start: real, window: real)
    ensures |InSpan(times + [t], start, window)| == |InSpan(times, start, window)| + if start <= t < start + window then 1 else 0
  {
    assert (times + [t])[..|times|] == times;
  }

  lemma {:induction false} RecentCounts(log: seq<Call>, key: string, now: real, window: real)
    ensures |Recent(Admitted(log, key), now, window)| == |AdmittedSince(log, key, now, window)|
  {
    if log != [] {
      var init, c := log[..|log|-1], log[|log|-1];
      RecentCounts(init, key, now, window);
      RecentSnoc(Admitted(init, key), c.at, now, window);
      SinceSnoc(init, c, key, now, window);
      assert log == init + [c];
    }
  }

  /** Wherever the window is laid, at most `max` calls of a key were admitted in it. */
  lemma WindowHoldsAtMostMax(log: seq<Call>, key: string, start: real, max: nat, window: real)
    requires IsRun(log, max, window)
    ensures |AdmittedWithin(log, key, start, window)| <= max
  {
    SpanHoldsAtMostMax(log, key, start, max, window);
    SpanCounts(log, key, start, window);
  }

  /** A call is rejected exactly when as many calls of its key as are allowed were admitted within the last window. */
  lemma RejectedIffFull(log: seq<Call>, i: nat, max: nat, window: real)
    requires IsRun(log, max, window) && i < |log|
    ensures !log[i].admitted <==> |AdmittedSince(log[..i], log[i].key, log[i].at, window)| >= max
  {
    FaithfulPrefix(log, i + 1, max, window);
    assert log[..i+1][..i] == log[..i];
    RecentCounts(log[..i], log[i].key, log[i].at, window);
  }

  lemma {:induction false} FaithfulPrefix(log: seq<Call>, n: nat, max: nat, window: real)
    requires Faithful(log, max, window) && n <= |log|
    ensures Faithful(log[..n], max, window)
  {
    if n < |log| {
      FaithfulPrefix(log[..|log|-1], n, max, window);
      assert log[..|log|-1][..n] == log[..n];
    } else {
      assert log[..n] == log;
    }
  }

  lemma {:induction false} SpanHoldsAtMostMax(log: seq<Call>, key: string, start: real, max: nat, window: real)
    requires IsRun(log, max, window)
    ensures |InSpan(Admitted(log, key), start, window)| <= max
  {
    if log != [] {
      var init, c := log[..|log|-1], log[|log|-1];
      SpanHoldsAtMostMax(init, key, start, max, window);
      if c.key == key && c.admitted {
        var times := Admitted(init, key);
        assert (times + [c.at])[..|times|] == times;
        if start <= c.at < start + window {
          SpanIsRecent(times, start, c.at, window);
        }
      }
    }
  }

  /** The calls of one key. */
  function Only(log: seq<Call>, key: string): seq<Call> {
    if log == [] then []
    else
      var c, r := log[|log|-1], Only(log[..|log|-1], key);
      if c.key == key then r + [c] else r
  }

  /** Each key is served as if it had the limiter to itself. */
  lemma {:induction false} KeysAreIndependent(log: seq<Call>, key: string, max: nat, window: real)
    requires Faithful(log, max, window)
    ensures Faithful(Only(log, key), max, window)
    ensures Admitted(Only(log, key), key) == Admitted(log, key)
  {
    if log != [] {
      var init, c := log[..|log|-1], log[|log|-1];
      KeysAreIndependent(init, key, max, window);
      if c.key == key {
        var only := Only(init, key);
        assert (only + [c])[..|only|] == only;
      }
    }
  }
}
