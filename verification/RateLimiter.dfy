/**
 The sliding-window rate limiter (src/api/server.rs): per key, a list of accepted times that is
 pruned at each check. Times are nanoseconds of one monotonic clock.
 */
module RateLimiting {
  const WINDOW: int := 60_000_000_000

  /** `Vec::retain` with the test `t > cutoff`. */
  function Retain(times: seq<int>, cutoff: int): seq<int> {
    if times == [] then []
    else
      var last := times[|times| - 1];
      Retain(times[..|times| - 1], cutoff) + if last > cutoff then [last] else []
  }

  function TimesOf(requests: map<string, seq<int>>, key: string): seq<int> {
    if key in requests then requests[key] else []
  }

  predicate Accepts(limit: nat, requests: map<string, seq<int>>, key: string, now: int) {
    |Retain(TimesOf(requests, key), now - WINDOW)| < limit
  }

  function Checked(limit: nat, requests: map<string, seq<int>>, key: string, now: int): map<string, seq<int>> {
    var kept := Retain(TimesOf(requests, key), now - WINDOW);
    requests[key := if Accepts(limit, requests, key, now) then kept + [now] else kept]
  }

  class RateLimiter {
    const limit: nat
    var requests: map<string, seq<int>>

    constructor (limit: nat)
      ensures this.limit == limit && requests == map[]
    {
      this.limit := limit;
      requests := map[];
    }

    /** `check_rate_limit`: prune, refuse if full, otherwise record the request. */
    method CheckRateLimit(key: string, now: int) returns (accepted: bool)
      modifies this
      ensures accepted == Accepts(limit, old(requests), key, now)
      ensures requests == Checked(limit, old(requests), key, now)
    {
      var entry := if key in requests then requests[key] else [];
      var kept := [];
      assert entry[..0] == [];
      for i := 0 to |entry|
        invariant kept == Retain(entry[..i], now - WINDOW)
      {
        assert entry[..i + 1][..i] == entry[..i];
        if entry[i] > now - WINDOW {
          kept := kept + [entry[i]];
        }
      }
      assert entry[..|entry|] == entry;
      accepted := |kept| < limit;
      requests := requests[key := if accepted then kept + [now] else kept];
    }
  }

  // ---------------------------------------------------------------- runs

  datatype Request = Request(key: string, at: int)

  function StateAfter(limit: nat, run: seq<Request>): map<string, seq<int>> {
    if run == [] then map[]
    else
      var r := run[|run| - 1];
      Checked(limit, StateAfter(limit, run[..|run| - 1]), r.key, r.at)
  }

  /** The full history: the times at which the limiter accepted a request for `key`. */
  function Accepted(limit: nat, run: seq<Request>, key: string): seq<int> {
    if run == [] then []
    else
      var before, r := run[..|run| - 1], run[|run| - 1];
      Accepted(limit, before, key) +
      if r.key == key && Accepts(limit, StateAfter(limit, before), key, r.at) then [r.at] else []
  }

  predicate InTimeOrder(run: seq<Request>) {
    forall i, j :: 0 <= i < j < |run| ==> run[i].at <= run[j].at
  }

  /** How many of the times lie in the half-open window (a, b]. */
  function CountIn(times: seq<int>, a: int, b: int): nat {
    if times == [] then 0
    else CountIn(times[..|times| - 1], a, b) + if a < times[|times| - 1] <= b then 1 else 0
  }

  lemma {:induction false} RetainTwice(times: seq<int>, c: int, d: int)
    requires c <= d
    ensures Retain(Retain(times, c), d) == Retain(times, d)
  {
    if times != [] {
      var init, last := times[..|times| - 1], times[|times| - 1];
      RetainTwice(init, c, d);
      if last > c {
        assert (Retain(init, c) + [last])[..|Retain(init, c)|] == Retain(init, c);
      } else {
        assert Retain(init, c) + [] == Retain(init, c);
      }
    }
  }

  lemma RetainSnoc(times: seq<int>, t: int, c: int)
    ensures Retain(times + [t], c) == Retain(times, c) + if t > c then [t] else []
  {
    assert (times + [t])[..|times|] == times;
  }

  lemma CountSnoc(times: seq<int>, t: int, a: int, b: int)
    ensures CountIn(times + [t], a, b) == CountIn(times, a, b) + if a < t <= b then 1 else 0
  {
    assert (times + [t])[..|times|] == times;
  }

  lemma {:induction false} RetainedIsCounted(times: seq<int>, a: int, b: int)
    requires forall i :: 0 <= i < |times| ==> times[i] <= b
    ensures |Retain(times, a)| == CountIn(times, a, b)
  {
    if times != [] {
      RetainedIsCounted(times[..|times| - 1], a, b);
    }
  }

  lemma {:induction false} NarrowerWindow(times: seq<int>, a: int, b: int, c: int, d: int)
    requires c <= a && forall i :: 0 <= i < |times| ==> times[i] <= d
    ensures CountIn(times, a, b) <= CountIn(times, c, d)
  {
    if times != [] {
      NarrowerWindow(times[..|times| - 1], a, b, c, d);
    }
  }

  lemma {:induction false} AcceptedInPast(limit: nat, run: seq<Request>, key: string, now: int)
    requires forall i :: 0 <= i < |run| ==> run[i].at <= now
    ensures forall i :: 0 <= i < |Accepted(limit, run, key)| ==> Accepted(limit, run, key)[i] <= now
  {
    hide Accepts, StateAfter;
    if run != [] {
      AcceptedInPast(limit, run[..|run| - 1], key, now);
    }
  }

  /** The pruned list is the full history cut at some earlier point, so pruning it now gives the recent history. */
  lemma {:induction false} PrunedListRefinesHistory(limit: nat, run: seq<Request>, key: string, now: int)
    requires InTimeOrder(run) && forall i :: 0 <= i < |run| ==> run[i].at <= now
    ensures Retain(TimesOf(StateAfter(limit, run), key), now - 60_000_000_000)
          == Retain(Accepted(limit, run, key), now - 60_000_000_000)
  {
    hide Retain;
    if run != [] {
      var before, r := run[..|run| - 1], run[|run| - 1];
      PrunedListRefinesHistory(limit, before, key, now);
      if r.key == key {
        var times, c := TimesOf(StateAfter(limit, before), key), r.at - WINDOW;
        var kept := Retain(times, c);
        RetainTwice(times, c, now - WINDOW);
        RetainSnoc(kept, r.at, now - WINDOW);
        RetainSnoc(Accepted(limit, before, key), r.at, now - WINDOW);
        assert Accepted(limit, before, key) + [] == Accepted(limit, before, key);
      } else {
        assert Accepted(limit, before, key) + [] == Accepted(limit, before, key);
      }
    }
  }

  /** A request is accepted exactly when fewer than `limit` were accepted for its key in the last 60 seconds. */
  lemma AcceptedIffRoom(limit: nat, run: seq<Request>, key: string, now: int)
    requires InTimeOrder(run) && forall i :: 0 <= i < |run| ==> run[i].at <= now
    ensures Accepts(limit, StateAfter(limit, run), key, now) <==>
            CountIn(Accepted(limit, run, key), now - 60_000_000_000, now) < limit
  {
    hide Retain, Accepted, StateAfter, CountIn;
    PrunedListRefinesHistory(limit, run, key, now);
    AcceptedInPast(limit, run, key, now);
    RetainedIsCounted(Accepted(limit, run, key), now - WINDOW, now);
  }

  /** In every run, every window (a, a + 60s] holds at most `limit` accepted requests of each key. */
  lemma {:induction false} WindowNeverExceeded(limit: nat, run: seq<Request>, key: string, a: int)
    requires InTimeOrder(run)
    ensures CountIn(Accepted(limit, run, key), a, a + 60_000_000_000) <= limit
  {
    hide Retain, Accepts, CountIn, StateAfter;
    if run == [] {
      NothingCounted(a, a + WINDOW);
    } else {
      var before, r := run[..|run| - 1], run[|run| - 1];
      WindowNeverExceeded(limit, before, key, a);
      var times := Accepted(limit, before, key);
      assert times + [] == times;
      CountSnoc(times, r.at, a, a + WINDOW);
      AcceptedIffRoom(limit, before, key, r.at);
      AcceptedInPast(limit, before, key, r.at);
      if r.at <= a + WINDOW {
        NarrowerWindow(times, a, a + WINDOW, r.at - WINDOW, r.at);
      }
    }
  }

  lemma NothingCounted(a: int, b: int)
    ensures CountIn([], a, b) == 0
  {
  }
}
