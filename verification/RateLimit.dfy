/** The sliding-window limiter of apps/mcp-gateway/app/core/rate_limit.py: a deque per key, pruned in
    place, against the rule it stands for. Times are exact seconds of a clock that does not go back. */
module RateLimit {
  datatype Outcome = Accepted | Rejected(retryAfter: int) | IndexError

  // ---------------------------------------------------------------- the rule

  /** The events of a log that are younger than one window. */
  function Recent(log: seq<real>, now: real, window: int): seq<real> {
    if log == [] then []
    else
      var t := log[|log| - 1];
      Recent(log[..|log| - 1], now, window) + if t > now - window as real then [t] else []
  }

  function RetryAfter(oldest: real, now: real, window: int): int {
    var whole := (window as real - (now - oldest)).Floor + 1;
    if whole > 1 then whole else 1
  }

  /** Accept exactly when fewer than `limit` events were accepted in the last window. */
  function Decide(log: seq<real>, now: real, limit: int, window: int): Outcome {
    var recent := Recent(log, now, window);
    if |recent| < limit then Accepted
    else if recent == [] then IndexError
    else Rejected(RetryAfter(recent[0], now, window))
  }

  datatype Call = Call(key: string, now: real)

  predicate Monotone(calls: seq<Call>) {
    forall i, j | 0 <= i <= j < |calls| :: calls[i].now <= calls[j].now
  }

  /** The times at which the rule accepted calls of a key, along a trace. */
  function AcceptedOf(calls: seq<Call>, key: string, limit: int, window: int): seq<real> {
    if calls == [] then []
    else
      var c, before := calls[|calls| - 1], AcceptedOf(calls[..|calls| - 1], key, limit, window);
      if c.key == key && Decide(before, c.now, limit, window).Accepted? then before + [c.now] else before
  }

  predicate Sorted(log: seq<real>) { forall i, j | 0 <= i <= j < |log| :: log[i] <= log[j] }

  predicate Apart(log: seq<real>, i: nat, limit: nat, window: int) {
    i + limit < |log| ==> log[i + limit] - log[i] >= window as real
  }

  /** Any limit + 1 consecutive accepted events span at least one window. */
  ghost predicate Spaced(log: seq<real>, limit: nat, window: int) {
    forall i: nat :: Apart(log, i, limit, window)
  }

  /** How many events fall into the window that starts after a. */
  function CountIn(log: seq<real>, a: real, window: int): nat {
    if log == [] then 0
    else
      var t := log[|log| - 1];
      CountIn(log[..|log| - 1], a, window) + if a < t <= a + window as real then 1 else 0
  }

  // ---------------------------------------------------------------- the deque

  class SlidingWindowRateLimiter {
    const limit: int
    const window: int
    var events: map<string, seq<real>>
    ghost var log: map<string, seq<real>>
    ghost var clock: real

    ghost predicate Valid()
      reads this
    {
      events.Keys == log.Keys && forall k | k in events :: Pruned(events[k], log[k], clock, window)
    }

    ghost function LogOf(key: string): seq<real>
      reads this
    {
      if key in log then log[key] else []
    }

    constructor (limit: int, window: int, ghost start: real)
      ensures Valid() && this.limit == limit && this.window == window && log == map[] && clock == start
    {
      this.limit, this.window, events, log, clock := limit, window, map[], map[], start;
    }

    /** Store a key's deque, keeping the log in step. */
    method Put(key: string, queue: seq<real>, ghost mine: seq<real>, ghost now: real)
      requires Valid() && clock <= now && Pruned(queue, mine, now, window)
      modifies this
      ensures Valid() && clock == now && events == old(events)[key := queue] && log == old(log)[key := mine]
    {
      forall k | k in events
        ensures Pruned(events[k], log[k], now, window)
      {
        PrunedLater(events[k], log[k], clock, now, window);
      }
      hide Pruned;
      events, log, clock := events[key := queue], log[key := mine], now;
    }

    method Check(key: string, now: real) returns (outcome: Outcome)
      requires Valid() && clock <= now
      modifies this
      ensures Valid() && clock == now
      ensures outcome == Decide(old(LogOf(key)), now, limit, window)
      ensures log == old(log)[key := old(LogOf(key)) + if outcome.Accepted? then [now] else []]
    {
      EmptyIsPruned(clock, window);
      hide Pruned, Recent;
      ghost var mine := LogOf(key);
      var queue := Prune(if key in events then events[key] else [], now, window, mine, clock);
      PrunedAppend(queue, mine, now, window);
      Put(key, queue, mine, now);
      if |queue| >= limit {
        if queue == [] { return IndexError; }
        var whole := (window as real - (now - queue[0])).Floor + 1;
        return Rejected(if whole > 1 then whole else 1);
      }
      Put(key, queue + [now], mine + [now], now);
      outcome := Accepted;
    }
  }

  /** A new limiter serves a whole trace: every call is answered by the rule on the calls of its key that
      the rule has accepted before. */
  method Serve(limit: int, window: int, calls: seq<Call>) returns (outcomes: seq<Outcome>)
    requires Monotone(calls)
    ensures |outcomes| == |calls|
    ensures forall i | 0 <= i < |calls| ::
              outcomes[i] == Decide(AcceptedOf(calls[..i], calls[i].key, limit, window), calls[i].now, limit, window)
  {
    hide Decide, AcceptedOf, Monotone, SlidingWindowRateLimiter.Valid;
    outcomes := [];
    if calls == [] { return; }
    NothingAccepted(calls, limit, window);
    var limiter := new SlidingWindowRateLimiter(limit, window, calls[0].now);
    assert Serving(limiter, calls, 0, limit, window);
    hide Serving;
    for i := 0 to |calls|
      invariant Serving(limiter, calls, i, limit, window) && fresh(limiter)
      invariant |outcomes| == i
      invariant forall j | 0 <= j < i ::
                  outcomes[j] ==
                    Decide(AcceptedOf(calls[..j], calls[j].key, limit, window), calls[j].now, limit, window)
    {
      var outcome := ServeOne(limiter, calls, i, limit, window);
      outcomes := outcomes + [outcome];
    }
  }

  /** The limiter's log of each key is what the rule has accepted of it. */
  ghost predicate Serving(limiter: SlidingWindowRateLimiter, calls: seq<Call>, i: nat, limit: int, window: int)
    requires calls != [] && i <= |calls|
    reads limiter
  {
    && limiter.Valid() && limiter.limit == limit && limiter.window == window
    && limiter.clock == calls[if i == 0 then 0 else i - 1].now
    && forall key: string :: limiter.LogOf(key) == AcceptedOf(calls[..i], key, limit, window)
  }

  method ServeOne(limiter: SlidingWindowRateLimiter, calls: seq<Call>, i: nat, limit: int, window: int)
    returns (outcome: Outcome)
    requires Monotone(calls) && i < |calls| && Serving(limiter, calls, i, limit, window)
    modifies limiter
    ensures Serving(limiter, calls, i + 1, limit, window)
    ensures outcome == Decide(AcceptedOf(calls[..i], calls[i].key, limit, window), calls[i].now, limit, window)
  {
    hide Decide, AcceptedOf, Monotone, SlidingWindowRateLimiter.Valid;
    ClockGoesOn(calls, i);
    AcceptedStep(calls, i, limit, window);
    outcome := limiter.Check(calls[i].key, calls[i].now);
    forall key: string ensures limiter.LogOf(key) == AcceptedOf(calls[..i + 1], key, limit, window) {
      assert old(limiter.LogOf(key)) == AcceptedOf(calls[..i], key, limit, window);
      assert old(limiter.LogOf(calls[i].key)) == AcceptedOf(calls[..i], calls[i].key, limit, window);
    }
  }

  lemma NothingAccepted(calls: seq<Call>, limit: int, window: int)
    ensures forall key: string :: AcceptedOf(calls[..0], key, limit, window) == []
  {
  }

  lemma ClockGoesOn(calls: seq<Call>, i: nat)
    requires Monotone(calls) && i < |calls|
    ensures calls[if i == 0 then 0 else i - 1].now <= calls[i].now
  {
  }

  lemma AcceptedStep(calls: seq<Call>, i: nat, limit: int, window: int)
    requires i < |calls|
    ensures forall key: string ::
              var before := AcceptedOf(calls[..i], key, limit, window);
              AcceptedOf(calls[..i + 1], key, limit, window) ==
              if calls[i].key == key && Decide(before, calls[i].now, limit, window).Accepted?
              then before + [calls[i].now] else before
  {
    hide Decide;
    assert calls[..i + 1][..i] == calls[..i] && calls[..i + 1][i] == calls[i];
  }

  /** The loop: drop events from the front while they are a window old. */
  method Prune(events: seq<real>, now: real, window: int, ghost log: seq<real>, ghost clock: real)
    returns (queue: seq<real>)
    requires Pruned(events, log, clock, window) && clock <= now
    ensures Pruned(queue, log, now, window) && queue == Recent(log, now, window)
  {
    queue := events;
    while queue != [] && queue[0] <= now - window as real
      invariant Pruned(queue, log, now, window)
      decreases |queue|
    {
      assert queue[0] == log[|log| - |queue|];
      queue := queue[1..];
    }
    PrunedIsRecent(queue, log, now, window);
  }

  lemma EmptyIsPruned(clock: real, window: int)
    ensures Pruned([], [], clock, window)
  {
  }

  lemma PrunedAppend(queue: seq<real>, log: seq<real>, now: real, window: int)
    requires Pruned(queue, log, now, window)
    ensures Pruned(queue + [now], log + [now], now, window) && log + [] == log
  {
  }

  /** The queue is the end of the log, and what was dropped is older than a window. */
  ghost predicate Pruned(queue: seq<real>, log: seq<real>, clock: real, window: int) {
    && |queue| <= |log| && log[|log| - |queue|..] == queue && Sorted(log)
    && (forall i | 0 <= i < |log| :: log[i] <= clock)
    && (forall i | 0 <= i < |log| - |queue| :: log[i] <= clock - window as real)
  }

  lemma PrunedLater(queue: seq<real>, log: seq<real>, clock: real, later: real, window: int)
    requires Pruned(queue, log, clock, window) && clock <= later
    ensures Pruned(queue, log, later, window)
  {
  }

  lemma {:induction false} RecentOfSorted(log: seq<real>, n: nat, now: real, window: int)
    requires n <= |log|
    requires forall i | 0 <= i < n :: log[i] <= now - window as real
    requires forall i | n <= i < |log| :: log[i] > now - window as real
    ensures Recent(log, now, window) == log[n..]
  {
    if log != [] {
      var p, t := log[..|log| - 1], log[|log| - 1];
      assert log == p + [t];
      if n < |log| {
        RecentOfSorted(p, n, now, window);
        assert log[n..] == p[n..] + [t];
      } else {
        RecentOfSorted(p, |p|, now, window);
        assert log[n..] == p[|p|..];
      }
    }
  }

  lemma PrunedIsRecent(queue: seq<real>, log: seq<real>, now: real, window: int)
    requires Pruned(queue, log, now, window) && (queue != [] ==> queue[0] > now - window as real)
    ensures Recent(log, now, window) == queue
  {
    var n := |log| - |queue|;
    forall i | n <= i < |log| ensures log[i] > now - window as real {
      assert log[i] == queue[i - n] && queue[0] == log[n];
    }
    RecentOfSorted(log, n, now, window);
  }

  // ---------------------------------------------------------------- what the rule guarantees

  lemma {:induction false} FirstRecent(log: seq<real>, now: real, window: int) returns (n: nat)
    requires Sorted(log)
    ensures n <= |log| && Recent(log, now, window) == log[n..]
    ensures forall i | 0 <= i < n :: log[i] <= now - window as real
    ensures forall i | n <= i < |log| :: log[i] > now - window as real
  {
    n := 0;
    while n < |log| && log[n] <= now - window as real
      invariant n <= |log| && forall i | 0 <= i < n :: log[i] <= now - window as real
    {
      n := n + 1;
    }
    RecentOfSorted(log, n, now, window);
  }

  predicate AllBy(log: seq<real>, now: real) { forall i | 0 <= i < |log| :: log[i] <= now }

  lemma MonotonePrefix(calls: seq<Call>)
    requires Monotone(calls) && calls != []
    ensures Monotone(calls[..|calls| - 1])
    ensures |calls| > 1 ==> calls[..|calls| - 1][|calls| - 2].now <= calls[|calls| - 1].now
  {
  }

  /** Along every trace of a clock that does not go back, accepted events stay apart. */
  lemma {:induction false} AcceptedAreSpaced(calls: seq<Call>, key: string, limit: int, window: int)
    requires Monotone(calls) && limit >= 1 && window >= 1
    ensures var log := AcceptedOf(calls, key, limit, window);
      && Sorted(log) && Spaced(log, limit, window)
      && (if calls == [] then log == [] else AllBy(log, calls[|calls| - 1].now))
  {
    if calls != [] {
      var p, c := calls[..|calls| - 1], calls[|calls| - 1];
      MonotonePrefix(calls);
      AcceptedAreSpaced(p, key, limit, window);
      var before := AcceptedOf(p, key, limit, window);
      assert AllBy(before, c.now);
      hide Recent, Spaced, Sorted, Monotone, RetryAfter;
      if Decide(before, c.now, limit, window).Accepted? { SpacedAppend(before, c.now, limit, window); }
    }
  }

  lemma SpacedAppend(log: seq<real>, now: real, limit: int, window: int)
    requires limit >= 1 && Sorted(log) && Spaced(log, limit, window) && |Recent(log, now, window)| < limit
    requires AllBy(log, now)
    ensures Sorted(log + [now]) && Spaced(log + [now], limit, window)
  {
    var n := FirstRecent(log, now, window);
    var more := log + [now];
    forall i: nat ensures Apart(more, i, limit, window) {
      assert Apart(log, i, limit, window);
    }
  }

  lemma {:induction false} CountBetween(log: seq<real>, a: real, window: int) returns (lo: nat, hi: nat)
    requires Sorted(log)
    ensures lo <= hi <= |log| && CountIn(log, a, window) == hi - lo
    ensures forall i | 0 <= i < |log| :: lo <= i < hi <==> a < log[i] <= a + window as real
  {
    if log == [] {
      lo, hi := 0, 0;
    } else {
      var p, t := log[..|log| - 1], log[|log| - 1];
      lo, hi := CountBetween(p, a, window);
      assert forall i | 0 <= i < |p| :: p[i] == log[i] <= t;
      if a < t <= a + window as real {
        if lo == hi {
          assert forall i | 0 <= i < |p| :: log[i] <= a;
          lo := |p|;
        } else {
          assert p[lo] > a;
          assert forall i | lo <= i < |p| :: log[lo] <= log[i];
        }
        hi := |log|;
      }
    }
  }

  /** No window holds more than `limit` accepted events of a key. */
  lemma WindowBound(calls: seq<Call>, key: string, limit: int, window: int, a: real)
    requires Monotone(calls) && limit >= 1 && window >= 1
    ensures CountIn(AcceptedOf(calls, key, limit, window), a, window) <= limit
  {
    var log := AcceptedOf(calls, key, limit, window);
    AcceptedAreSpaced(calls, key, limit, window);
    var lo, hi := CountBetween(log, a, window);
    assert Apart(log, lo, limit, window);
  }

  /** After a rejection: waiting for less than the true wait is rejected again, the advertised wait is
      enough if nothing else is accepted meanwhile, and it exceeds the true wait by at most a second. */
  lemma RetryIsHonest(log: seq<real>, now: real, later: real, limit: int, window: int)
    requires limit >= 1 && Sorted(log) && Spaced(log, limit, window) && window >= 1 && now <= later
    requires AllBy(log, now)
    requires Decide(log, now, limit, window).Rejected?
    ensures var wait := Recent(log, now, window)[0] + window as real - now;
      var advertised := Decide(log, now, limit, window).retryAfter as real;
      && 0.0 < wait < advertised <= wait + 1.0
      && (Decide(log, later, limit, window).Accepted? <==> later >= now + wait)
  {
    var n := FirstRecent(log, now, window);
    var m := FirstRecent(log, later, window);
    var wait := log[n] + window as real - now;
    assert Apart(log, n, limit, window);
    assert wait.Floor as real <= wait < wait.Floor as real + 1.0;
    if later >= now + wait {
      assert log[n] <= later - window as real;
    } else {
      assert log[n] > later - window as real;
      assert m <= n;
    }
  }
}
