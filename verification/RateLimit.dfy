/** app/core/ratelimit.py: the fixed-window counter, over timed traces of one key. */
module RateLimit {
  import opened Wrappers

  /** The Redis key: how often it was incremented and when it expires, if it does. */
  datatype Counter = Counter(count: nat, expiry: Option<int>)

  /** How Redis answers one request: both commands work, or the first or the second raises. */
  datatype Redis = Up | IncrFails | ExpireFails

  datatype Request = Request(time: int, redis: Redis)

  /** An expired key is gone. */
  function Live(key: Option<Counter>, time: int): Option<Counter> {
    if key.Some? && key.value.expiry.Some? && time >= key.value.expiry.value then None else key
  }

  /** `incr`: creates the key at 1 without an expiry. */
  function Incr(key: Option<Counter>, time: int): Counter {
    match Live(key, time)
    case None => Counter(1, None)
    case Some(c) => c.(count := c.count + 1)
  }

  /** `_hit`: the key afterwards, and whether the request is let through. A Redis error lets it through. */
  function Next(key: Option<Counter>, hit: Request, limit: nat, window: nat): (Option<Counter>, bool) {
    if hit.redis == IncrFails then (Live(key, hit.time), true)
    else
      var c := Incr(key, hit.time);
      if c.count == 1 then
        if hit.redis == ExpireFails then (Some(c), true)
        else (Some(c.(expiry := Some(hit.time + window))), c.count <= limit)
      else (Some(c), c.count <= limit)
  }

  /** The shared counter, as the service uses it. */
  class Limiter {
    var key: Option<Counter>
    const limit: nat
    const window: nat

    constructor (limit: nat, window: nat)
      ensures key == None && this.limit == limit && this.window == window
    {
      this.limit, this.window := limit, window;
      key := None;
    }

    /** Increments the counter of the window, starting one if need be; false means a 429. */
    method Hit(time: int, redis: Redis) returns (allowed: bool)
      modifies this`key
      ensures (key, allowed) == Next(old(key), Request(time, redis), limit, window)
    {
      key := Live(key, time);
      if redis == IncrFails { return true; }
      if key.None? {
        key := Some(Counter(0, None));
      }
      key := Some(key.value.(count := key.value.count + 1));
      var count := key.value.count;
      if count == 1 {
        if redis == ExpireFails { return true; }
        key := Some(key.value.(expiry := Some(time + window)));
      }
      allowed := count <= limit;
    }
  }

  function After(key: Option<Counter>, trace: seq<Request>, limit: nat, window: nat): Option<Counter> {
    if trace == [] then key
    else Next(After(key, trace[..|trace| - 1], limit, window), trace[|trace| - 1], limit, window).0
  }

  /** The number of requests of a trace that are let through. */
  function Admitted(key: Option<Counter>, trace: seq<Request>, limit: nat, window: nat): nat {
    if trace == [] then 0
    else
      var front := trace[..|trace| - 1];
      Admitted(key, front, limit, window) +
      if Next(After(key, front, limit, window), trace[|trace| - 1], limit, window).1 then 1 else 0
  }

  predicate AllUp(trace: seq<Request>) {
    forall i :: 0 <= i < |trace| ==> trace[i].redis == Up
  }

  predicate InOrder(trace: seq<Request>) {
    forall i, j :: 0 <= i < j < |trace| ==> trace[i].time <= trace[j].time
  }

  /** All within a half-open interval of one window's length. */
  predicate Within(trace: seq<Request>, start: int, window: nat) {
    forall i :: 0 <= i < |trace| ==> start <= trace[i].time < start + window
  }

  /** With Redis up, every key has been used and has an expiry. */
  predicate Sound(key: Option<Counter>) {
    key.Some? ==> key.value.count >= 1 && key.value.expiry.Some?
  }

  function Min(a: int, b: int): int {
    if a <= b then a else b
  }

  // ----- traces cut in two

  lemma {:induction false} Split(key: Option<Counter>, a: seq<Request>, b: seq<Request>, limit: nat, window: nat)
    ensures After(key, a + b, limit, window) == After(After(key, a, limit, window), b, limit, window)
    ensures Admitted(key, a + b, limit, window) ==
      Admitted(key, a, limit, window) + Admitted(After(key, a, limit, window), b, limit, window)
  {
    if b == [] {
      assert a + b == a;
    } else {
      var n := |b| - 1;
      assert (a + b)[..|a| + n] == a + b[..n];
      Split(key, a, b[..n], limit, window);
    }
  }

  lemma {:induction false} SoundAfter(key: Option<Counter>, trace: seq<Request>, limit: nat, window: nat)
    requires Sound(key) && AllUp(trace)
    ensures Sound(After(key, trace, limit, window))
  {
    if trace != [] {
      SoundAfter(key, trace[..|trace| - 1], limit, window);
    }
  }

  // ----- one window

  /** Requests that are counted, all before the counter expires. */
  predicate Counted(c: Counter, trace: seq<Request>) {
    forall i :: 0 <= i < |trace| ==>
      trace[i].redis != IncrFails && (c.expiry.Some? ==> trace[i].time < c.expiry.value)
  }

  /** While a counter lives it counts every hit and admits exactly what is left of the limit. */
  lemma {:induction false} SameWindow(c: Counter, trace: seq<Request>, limit: nat, window: nat)
    requires c.count >= 1 && Counted(c, trace)
    ensures After(Some(c), trace, limit, window) == Some(c.(count := c.count + |trace|))
    ensures Admitted(Some(c), trace, limit, window) == if c.count >= limit then 0 else Min(|trace|, limit - c.count)
  {
    if trace != [] {
      SameWindow(c, trace[..|trace| - 1], limit, window);
    }
  }

  lemma OneRequest(key: Option<Counter>, request: Request, limit: nat, window: nat)
    ensures After(key, [request], limit, window) == Next(key, request, limit, window).0
    ensures Admitted(key, [request], limit, window) == if Next(key, request, limit, window).1 then 1 else 0
  {
    assert [request][..0] == [];
    assert After(key, [], limit, window) == key;
  }

  /** A window that starts with a fresh counter admits exactly the smaller of its hits and the limit. */
  lemma FreshWindow(key: Option<Counter>, trace: seq<Request>, limit: nat, window: nat)
    requires AllUp(trace) && window > 0
    requires trace != [] ==> Live(key, trace[0].time).None? && Within(trace, trace[0].time, window)
    ensures Admitted(key, trace, limit, window) == Min(|trace|, limit)
  {
    if trace != [] {
      var first, rest := [trace[0]], trace[1..];
      assert trace == first + rest;
      Split(key, first, rest, limit, window);
      OneRequest(key, trace[0], limit, window);
      SameWindow(Counter(1, Some(trace[0].time + window)), rest, limit, window);
    }
  }

  // ----- any interval as long as a window

  /** The requests before a time, and those from it on. */
  lemma CutAt(key: Option<Counter>, trace: seq<Request>, time: int, start: int, limit: nat, window: nat)
    returns (a: seq<Request>, b: seq<Request>)
    requires AllUp(trace) && InOrder(trace) && Within(trace, start, window)
    ensures AllUp(a) && forall i :: 0 <= i < |a| ==> a[i].time < time
    ensures AllUp(b) && Within(b, start, window)
    ensures b != [] ==> b[0].time >= time && forall i :: 0 <= i < |b| ==> b[0].time <= b[i].time
    ensures Admitted(key, trace, limit, window) ==
      Admitted(key, a, limit, window) + Admitted(After(key, a, limit, window), b, limit, window)
  {
    var n := 0;
    while n < |trace| && trace[n].time < time
      invariant n <= |trace|
      invariant forall i :: 0 <= i < n ==> trace[i].time < time
    {
      n := n + 1;
    }
    a, b := trace[..n], trace[n..];
    SplitAt(key, trace, n, limit, window);
  }

  lemma SplitAt(key: Option<Counter>, trace: seq<Request>, n: nat, limit: nat, window: nat)
    requires n <= |trace|
    ensures Admitted(key, trace, limit, window) ==
      Admitted(key, trace[..n], limit, window)
      + Admitted(After(key, trace[..n], limit, window), trace[n..], limit, window)
  {
    assert trace[..n] + trace[n..] == trace;
    Split(key, trace[..n], trace[n..], limit, window);
  }

  /** What follows an expired counter within one window's length is one window. */
  lemma LaterWindow(key: Option<Counter>, trace: seq<Request>, start: int, limit: nat, window: nat)
    requires AllUp(trace) && Within(trace, start, window) && window > 0
    requires trace != [] ==> Live(key, trace[0].time).None?
    requires forall i :: 0 <= i < |trace| ==> trace[0].time <= trace[i].time
    ensures Admitted(key, trace, limit, window) <= limit
  {
    FreshWindow(key, trace, limit, window);
  }

  /** From any sound counter, hits within one window's length: what is left of the counter's window,
      and at most the limit for the one that may start after it. */
  lemma IntervalFromCounter(key: Option<Counter>, trace: seq<Request>, start: int, limit: nat, window: nat)
    requires Sound(key) && AllUp(trace) && InOrder(trace) && Within(trace, start, window) && window > 0
    ensures Admitted(key, trace, limit, window) <=
      limit + (if key.Some? && key.value.count < limit then limit - key.value.count else 0)
  {
    if key.None? {
      FreshWindow(key, trace, limit, window);
    } else {
      var c := key.value;
      var a, b := CutAt(key, trace, c.expiry.value, start, limit, window);
      SameWindow(c, a, limit, window);
      LaterWindow(Some(c.(count := c.count + |a|)), b, start, limit, window);
    }
  }

  /** The sliding-window bound. With Redis up, however requests are timed from the first one on, no
      half-open interval of one window's length lets more than 2 * limit - 1 through (none if the
      limit is 0): the request that starts a window uses up one of its admissions, and two windows
      that both fit an interval cannot both start in it. */
  lemma SlidingWindow(before: seq<Request>, trace: seq<Request>, start: int, limit: nat, window: nat)
    requires AllUp(before) && AllUp(trace) && InOrder(before + trace) && Within(trace, start, window) && window > 0
    ensures var admitted := Admitted(After(None, before, limit, window), trace, limit, window);
      && Admitted(None, before + trace, limit, window) == Admitted(None, before, limit, window) + admitted
      && admitted <= if limit == 0 then 0 else 2 * limit - 1
  {
    var key := After(None, before, limit, window);
    Split(None, before, trace, limit, window);
    SoundAfter(None, before, limit, window);
    assert InOrder(trace) by {
      var all := before + trace;
      forall i, j | 0 <= i < j < |trace| ensures trace[i].time <= trace[j].time {
        assert trace[i] == all[|before| + i] && trace[j] == all[|before| + j];
      }
    }
    IntervalFromCounter(key, trace, start, limit, window);
  }

  // ----- the bound is reached

  function Burst(n: nat, time: int): seq<Request> {
    seq(n, _ => Request(time, Up))
  }

  lemma TwoBursts(limit: nat, window: nat)
    requires limit >= 1 && window >= 1
    ensures Admitted(Some(Counter(1, Some(window as int))), Burst(limit - 1, window - 1) + Burst(limit, window),
                     limit, window)
         == 2 * limit - 1
  {
    var c := Counter(1, Some(window as int));
    SameWindow(c, Burst(limit - 1, window - 1), limit, window);
    FreshWindow(Some(c.(count := limit)), Burst(limit, window), limit, window);
    Split(Some(c), Burst(limit - 1, window - 1), Burst(limit, window), limit, window);
  }

  lemma BurstsInOrder(a: nat, s: int, b: nat, t: int)
    requires s <= t
    ensures AllUp(Burst(a, s) + Burst(b, t)) && InOrder(Burst(a, s) + Burst(b, t))
  {
  }

  /** One request at the start of a window, the rest of the limit at its end, and the limit again as
      soon as it is over: 2 * limit - 1 requests let through within one time unit. */
  lemma BoundIsReached(limit: nat, window: nat)
    requires limit >= 1 && window >= 2
    ensures var before, trace := Burst(1, 0), Burst(limit - 1, window - 1) + Burst(limit, window);
      && AllUp(before) && AllUp(trace) && InOrder(before + trace) && Within(trace, window - 1, window)
      && Admitted(After(None, before, limit, window), trace, limit, window) == 2 * limit - 1
  {
    BurstsInOrder(limit - 1, window - 1, limit, window);
    assert Burst(1, 0) == [Request(0, Up)];
    OneRequest(None, Request(0, Up), limit, window);
    TwoBursts(limit, window);
  }

  // ----- when Redis fails

  /** A key that lost its expiry and has reached the limit refuses every later request. */
  lemma LostExpiryLocksOut(c: Counter, trace: seq<Request>, limit: nat, window: nat)
    requires c.expiry.None? && c.count >= limit && c.count >= 1 && Counted(c, trace)
    ensures Admitted(Some(c), trace, limit, window) == 0
    ensures After(Some(c), trace, limit, window) == Some(c.(count := c.count + |trace|))
  {
    SameWindow(c, trace, limit, window);
  }

  /** The input that fails: the one request whose `expire` raises is let through, and from then on the
      key never expires. Whenever later requests come, they share what is left of one limit for ever. */
  lemma FailedExpireLocksOut(time: int, trace: seq<Request>, limit: nat, window: nat)
    requires forall i :: 0 <= i < |trace| ==> trace[i].redis != IncrFails
    ensures var all := [Request(time, ExpireFails)] + trace;
      && Admitted(None, all, limit, window) == (if limit == 0 then 1 else Min(|all|, limit))
      && (|all| >= limit ==> LockedOut(After(None, all, limit, window), limit, window))
  {
    var first := [Request(time, ExpireFails)];
    Split(None, first, trace, limit, window);
    OneRequest(None, first[0], limit, window);
    SameWindow(Counter(1, None), trace, limit, window);
    LockedOutIff(After(None, first + trace, limit, window), limit, window);
  }

  /** No request is let through again, however long it waits. */
  ghost predicate LockedOut(key: Option<Counter>, limit: nat, window: nat) {
    forall t: int :: !Next(key, Request(t, Up), limit, window).1
  }

  /** Only a counter without an expiry that is used up locks out (or a limit of 0). */
  lemma LockedOutIff(key: Option<Counter>, limit: nat, window: nat)
    requires key.Some? ==> key.value.count >= 1
    ensures LockedOut(key, limit, window) <==>
      limit == 0 || (key.Some? && key.value.expiry.None? && key.value.count >= limit)
  {
    if LockedOut(key, limit, window) && limit > 0 {
      var late := if key.Some? && key.value.expiry.Some? then key.value.expiry.value else 0;
      assert !Next(key, Request(late, Up), limit, window).1;
    }
  }

  /** The request of a trace that starts a window and whose `expire` raises. */
  predicate LosesExpiry(key: Option<Counter>, trace: seq<Request>, i: nat, limit: nat, window: nat)
    requires i < |trace|
  {
    trace[i].redis == ExpireFails && Live(After(key, trace[..i], limit, window), trace[i].time).None?
  }

  predicate NeverExpires(key: Option<Counter>) {
    key.Some? && key.value.expiry.None?
  }

  /** The exact condition: after any trace, whatever Redis did, a key is left without an expiry if and
      only if `expire` raised for some request that started a window. */
  lemma {:induction false} ExpiryIsLostIff(key: Option<Counter>, trace: seq<Request>, limit: nat, window: nat)
    requires Sound(key)
    ensures var after := After(key, trace, limit, window);
      && (after.Some? ==> after.value.count >= 1)
      && (NeverExpires(after) <==> exists i :: 0 <= i < |trace| && LosesExpiry(key, trace, i, limit, window))
  {
    if trace != [] {
      var n := |trace| - 1;
      ExpiryIsLostIff(key, trace[..n], limit, window);
      forall i | 0 <= i < n
        ensures LosesExpiry(key, trace, i, limit, window) <==> LosesExpiry(key, trace[..n], i, limit, window)
      {
        assert trace[..n][..i] == trace[..i];
      }
      assert NeverExpires(After(key, trace, limit, window)) <==>
        NeverExpires(After(key, trace[..n], limit, window)) || LosesExpiry(key, trace, n, limit, window);
    }
  }

  /** So a client is locked out for ever after a trace if and only if some request lost its window's
      expiry and the key has since counted up to the limit. */
  lemma LockedOutAfterIff(trace: seq<Request>, limit: nat, window: nat)
    requires limit > 0
    ensures var after := After(None, trace, limit, window);
      LockedOut(after, limit, window) <==>
        && (exists i :: 0 <= i < |trace| && LosesExpiry(None, trace, i, limit, window))
        && after.Some? && after.value.count >= limit
  {
    ExpiryIsLostIff(None, trace, limit, window);
    LockedOutIff(After(None, trace, limit, window), limit, window);
  }

  /** The requests of a trace that reached Redis. */
  function Reached(trace: seq<Request>): seq<Request> {
    if trace == [] then []
    else
      var n := |trace| - 1;
      Reached(trace[..n]) + if trace[n].redis == IncrFails then [] else [trace[n]]
  }

  lemma ReachedSnoc(key: Option<Counter>, trace: seq<Request>, r: Request, limit: nat, window: nat)
    ensures var next := Next(After(key, trace, limit, window), r, limit, window);
      && After(key, trace + [r], limit, window) == next.0
      && Admitted(key, trace + [r], limit, window) == Admitted(key, trace, limit, window) + if next.1 then 1 else 0
  {
    assert (trace + [r])[..|trace|] == trace;
  }

  lemma NextIsOfLive(a: Option<Counter>, b: Option<Counter>, r: Request, limit: nat, window: nat)
    requires Live(a, r.time) == Live(b, r.time) && r.redis != IncrFails
    ensures Next(a, r, limit, window) == Next(b, r, limit, window)
  {
  }

  lemma LiveTwice(key: Option<Counter>, t: int, later: int)
    requires t <= later
    ensures Live(Live(key, t), later) == Live(key, later)
  {
  }

  /** Requests made while Redis is down are all let through and change nothing for the others: those are
      counted, admitted and refused as if there had been no outage. */
  lemma {:induction false} OutageLeavesNoTrace(key: Option<Counter>, trace: seq<Request>, t: int, limit: nat,
                                               window: nat)
    requires InOrder(trace) && forall i :: 0 <= i < |trace| ==> trace[i].time <= t
    ensures |Reached(trace)| <= |trace|
    ensures Admitted(key, trace, limit, window) ==
      Admitted(key, Reached(trace), limit, window) + |trace| - |Reached(trace)|
    ensures Live(After(key, trace, limit, window), t) == Live(After(key, Reached(trace), limit, window), t)
  {
    if trace != [] {
      var n := |trace| - 1;
      var front, last := trace[..n], trace[n];
      if last.redis != IncrFails {
        OutageLeavesNoTrace(key, front, last.time, limit, window);
        ReachedSnoc(key, Reached(front), last, limit, window);
        NextIsOfLive(After(key, front, limit, window), After(key, Reached(front), limit, window), last, limit, window);
      } else {
        OutageLeavesNoTrace(key, front, t, limit, window);
        assert Reached(front) + [] == Reached(front);
        LiveTwice(After(key, front, limit, window), last.time, t);
      }
    }
  }

  /** While the counter cannot be reached, everything is let through. */
  lemma {:induction false} DownAdmitsAll(key: Option<Counter>, trace: seq<Request>, limit: nat, window: nat)
    requires forall i :: 0 <= i < |trace| ==> trace[i].redis == IncrFails
    ensures Admitted(key, trace, limit, window) == |trace|
  {
    if trace != [] {
      DownAdmitsAll(key, trace[..|trace| - 1], limit, window);
    }
  }
}
