/**
 * The per-tenant request limiter: one Redis counter per aligned window, with an expiry set at the first increment.  The
 * backend picks the window by its own clock; the increment arrives at Redis some time later.
 */
module RateLimit {

  /** A counter and the time (ms) from which Redis no longer sees it. */
  datatype Counter = Counter(count: nat, expiresAt: nat)

  datatype Key = Key(tenant: string, window: nat)

  type Counters = map<Key, Counter>

  /** The time the backend reads, and the time Redis counts the request. */
  datatype Request = Request(tenant: string, time: nat, arrival: nat)

  /** The aligned window a time in ms falls into. */
  function WindowOf(time: nat, windowSeconds: nat): nat
    requires windowSeconds > 0
  {
    (time / 1000) / windowSeconds
  }

  function WindowStart(window: nat, windowSeconds: nat): nat {
    window * windowSeconds * 1000
  }

  function KeyOf(r: Request, windowSeconds: nat): Key
    requires windowSeconds > 0
  {
    Key(r.tenant, WindowOf(r.time, windowSeconds))
  }

  /** INCR: a counter that is absent or expired starts again at 1 without an expiry of its own. */
  function Increment(counters: Counters, key: Key, arrival: nat): nat {
    if key in counters && arrival < counters[key].expiresAt then counters[key].count + 1 else 1
  }

  function Hit(counters: Counters, r: Request, windowSeconds: nat): Counters
    requires windowSeconds > 0
  {
    var key := KeyOf(r, windowSeconds);
    var current := Increment(counters, key, r.arrival);
    counters[key := Counter(current, if current == 1 then r.arrival + (windowSeconds + 1) * 1000
                                     else if key in counters then counters[key].expiresAt else 0)]
  }

  // ---------- Traces ----------

  function After(trace: seq<Request>, windowSeconds: nat): Counters
    requires windowSeconds > 0
  {
    if trace == [] then map[] else Hit(After(trace[..|trace| - 1], windowSeconds), trace[|trace| - 1], windowSeconds)
  }

  /** Whether the last request of the trace is allowed. */
  predicate LastAllowed(trace: seq<Request>, limit: int, windowSeconds: nat)
    requires windowSeconds > 0 && trace != []
  {
    var r := trace[|trace| - 1];
    var before := After(trace[..|trace| - 1], windowSeconds);
    Increment(before, KeyOf(r, windowSeconds), r.arrival) <= limit
  }

  /** Allowed requests of a tenant with a time in [from, to). */
  function AllowedIn(trace: seq<Request>, limit: int, windowSeconds: nat, tenant: string, from: int, to: int): nat
    requires windowSeconds > 0
  {
    if trace == [] then 0
    else
      var r := trace[|trace| - 1];
      AllowedIn(trace[..|trace| - 1], limit, windowSeconds, tenant, from, to)
      + if r.tenant == tenant && from <= r.time < to && LastAllowed(trace, limit, windowSeconds) then 1 else 0
  }

  /** Requests of a tenant in a window, allowed or not. */
  function Hits(trace: seq<Request>, windowSeconds: nat, key: Key): nat
    requires windowSeconds > 0
  {
    if trace == [] then 0
    else
      var r := trace[|trace| - 1];
      Hits(trace[..|trace| - 1], windowSeconds, key)
      + if key == KeyOf(r, windowSeconds) then 1 else 0
  }

  // ---------- Windows ----------

  lemma WindowBounds(time: nat, windowSeconds: nat)
    requires windowSeconds > 0
    ensures var w := WindowOf(time, windowSeconds);
            WindowStart(w, windowSeconds) <= time < WindowStart(w + 1, windowSeconds)
  {
    var seconds := time / 1000;
    var w := seconds / windowSeconds;
    assert seconds == w * windowSeconds + seconds % windowSeconds;
    assert (w + 1) * windowSeconds == w * windowSeconds + windowSeconds;
  }

  lemma WindowsInOrder(v: nat, w: nat, windowSeconds: nat)
    requires v < w
    ensures WindowStart(v + 1, windowSeconds) <= WindowStart(w, windowSeconds)
  {
    assert (v + 1) * windowSeconds <= w * windowSeconds;
  }

  lemma WindowUnique(time: nat, w: nat, windowSeconds: nat)
    requires windowSeconds > 0
    ensures WindowStart(w, windowSeconds) <= time < WindowStart(w + 1, windowSeconds)
            <==> WindowOf(time, windowSeconds) == w
  {
    WindowBounds(time, windowSeconds);
    var v := WindowOf(time, windowSeconds);
    if v < w {
      WindowsInOrder(v, w, windowSeconds);
    } else if w < v {
      WindowsInOrder(w, v, windowSeconds);
    }
  }

  // ---------- The counter counts ----------

  /** When the first hit of a counter arrived. */
  function FirstArrival(trace: seq<Request>, windowSeconds: nat, key: Key): nat
    requires windowSeconds > 0 && Hits(trace, windowSeconds, key) > 0
  {
    var front := trace[..|trace| - 1];
    if Hits(front, windowSeconds, key) > 0 then FirstArrival(front, windowSeconds, key)
    else trace[|trace| - 1].arrival
  }

  /** The request arrives before the expiry that the first hit of its counter has set. */
  predicate InTime(trace: seq<Request>, r: Request, windowSeconds: nat)
    requires windowSeconds > 0
  {
    Hits(trace, windowSeconds, KeyOf(r, windowSeconds)) > 0 ==>
      r.arrival < FirstArrival(trace, windowSeconds, KeyOf(r, windowSeconds)) + (windowSeconds + 1) * 1000
  }

  predicate Timely(trace: seq<Request>, windowSeconds: nat)
    requires windowSeconds > 0
  {
    trace == [] ||
    (Timely(trace[..|trace| - 1], windowSeconds)
     && InTime(trace[..|trace| - 1], trace[|trace| - 1], windowSeconds))
  }

  /** A counter holds the hits of its window, and expires a window length and a second after the first arrived. */
  ghost predicate Counts(trace: seq<Request>, windowSeconds: nat, key: Key)
    requires windowSeconds > 0
  {
    var counters, hits := After(trace, windowSeconds), Hits(trace, windowSeconds, key);
    && (key in counters <==> hits > 0)
    && (hits > 0 ==>
          && counters[key].count == hits
          && counters[key].expiresAt == FirstArrival(trace, windowSeconds, key) + (windowSeconds + 1) * 1000)
  }

  lemma {:induction false} CounterCounts(trace: seq<Request>, windowSeconds: nat, key: Key)
    requires windowSeconds > 0 && Timely(trace, windowSeconds)
    ensures Counts(trace, windowSeconds, key)
  {
    if trace != [] {
      CounterCounts(trace[..|trace| - 1], windowSeconds, key);
    }
  }

  /** A request gets its number in its window exactly if it is in time. */
  lemma NextHit(trace: seq<Request>, r: Request, windowSeconds: nat)
    requires windowSeconds > 0 && Timely(trace, windowSeconds)
    ensures var key := KeyOf(r, windowSeconds);
            InTime(trace, r, windowSeconds)
            <==> Increment(After(trace, windowSeconds), key, r.arrival) == Hits(trace, windowSeconds, key) + 1
  {
    CounterCounts(trace, windowSeconds, KeyOf(r, windowSeconds));
  }

  /** Every request gets its number in its window. */
  predicate AllNumbered(trace: seq<Request>, windowSeconds: nat)
    requires windowSeconds > 0
  {
    trace == [] ||
    var front, r := trace[..|trace| - 1], trace[|trace| - 1];
    && AllNumbered(front, windowSeconds)
    && Increment(After(front, windowSeconds), KeyOf(r, windowSeconds), r.arrival)
       == Hits(front, windowSeconds, KeyOf(r, windowSeconds)) + 1
  }

  /** The counters count every request of every window if and only if every one arrives before the expiry. */
  lemma {:induction false} CountsExactly(trace: seq<Request>, windowSeconds: nat)
    requires windowSeconds > 0
    ensures AllNumbered(trace, windowSeconds) <==> Timely(trace, windowSeconds)
  {
    if trace != [] {
      CountsExactly(trace[..|trace| - 1], windowSeconds);
      if Timely(trace[..|trace| - 1], windowSeconds) {
        NextHit(trace[..|trace| - 1], trace[|trace| - 1], windowSeconds);
      }
    }
  }

  /** The request arrives no later than a second after its window has ended. */
  predicate PromptOne(r: Request, windowSeconds: nat)
    requires windowSeconds > 0
  {
    r.time <= r.arrival < WindowStart(WindowOf(r.time, windowSeconds) + 1, windowSeconds) + 1000
  }

  predicate Prompt(trace: seq<Request>, windowSeconds: nat)
    requires windowSeconds > 0
  {
    trace == [] ||
    (Prompt(trace[..|trace| - 1], windowSeconds) && PromptOne(trace[|trace| - 1], windowSeconds))
  }

  /** The first hit of a window arrives no earlier than the window starts. */
  lemma {:induction false} FirstNotBefore(trace: seq<Request>, windowSeconds: nat, key: Key)
    requires windowSeconds > 0 && Prompt(trace, windowSeconds) && Hits(trace, windowSeconds, key) > 0
    ensures WindowStart(key.window, windowSeconds) <= FirstArrival(trace, windowSeconds, key)
  {
    var front, r := trace[..|trace| - 1], trace[|trace| - 1];
    if Hits(front, windowSeconds, key) > 0 {
      FirstNotBefore(front, windowSeconds, key);
    } else {
      WindowBounds(r.time, windowSeconds);
    }
  }

  /** The extra second of the expiry is the delay it allows: no counter is cleared while prompt requests arrive. */
  lemma {:induction false} CounterOutlivesWindow(trace: seq<Request>, windowSeconds: nat)
    requires windowSeconds > 0 && Prompt(trace, windowSeconds)
    ensures Timely(trace, windowSeconds)
  {
    if trace != [] {
      var front, r := trace[..|trace| - 1], trace[|trace| - 1];
      CounterOutlivesWindow(front, windowSeconds);
      if Hits(front, windowSeconds, KeyOf(r, windowSeconds)) > 0 {
        FirstNotBefore(front, windowSeconds, KeyOf(r, windowSeconds));
        NextStart(WindowOf(r.time, windowSeconds), windowSeconds);
      }
    }
  }

  /** A request delayed by that much more finds no counter: two of one moment both pass a limit of 1. */
  lemma LateArrivalPasses(windowSeconds: nat, tenant: string)
    requires windowSeconds > 0
    ensures var trace := [Request(tenant, 0, 0), Request(tenant, 0, (windowSeconds + 1) * 1000)];
            AllowedIn(trace, 1, windowSeconds, tenant, 0, WindowStart(1, windowSeconds)) == 2
  {
    var first, second := Request(tenant, 0, 0), Request(tenant, 0, (windowSeconds + 1) * 1000);
    var key := Key(tenant, 0);
    WindowUnique(0, 0, windowSeconds);
    NextStart(0, windowSeconds);
    assert [first, second][..1] == [first] && [first][..0] == [];
    assert After([first], windowSeconds) == map[key := Counter(1, (windowSeconds + 1) * 1000)];
    assert AllowedIn([first], 1, windowSeconds, tenant, 0, WindowStart(1, windowSeconds)) == 1;
  }

  lemma NextStart(window: nat, windowSeconds: nat)
    ensures WindowStart(window + 1, windowSeconds) == WindowStart(window, windowSeconds) + windowSeconds * 1000
  {
    assert (window + 1) * windowSeconds == window * windowSeconds + windowSeconds;
  }

  function Capacity(limit: int): nat {
    if limit > 0 then limit else 0
  }

  function Min(x: nat, y: nat): nat {
    if x < y then x else y
  }

  /** In every aligned window exactly the first `limit` requests of a tenant are allowed. */
  lemma {:induction false} AllowedPerWindow(trace: seq<Request>, limit: int, windowSeconds: nat, key: Key)
    requires windowSeconds > 0 && Timely(trace, windowSeconds)
    ensures AllowedIn(trace, limit, windowSeconds, key.tenant,
                      WindowStart(key.window, windowSeconds), WindowStart(key.window + 1, windowSeconds))
            == Min(Hits(trace, windowSeconds, key), Capacity(limit))
  {
    if trace != [] {
      var front, r := trace[..|trace| - 1], trace[|trace| - 1];
      AllowedPerWindow(front, limit, windowSeconds, key);
      NextHit(front, r, windowSeconds);
      WindowUnique(r.time, key.window, windowSeconds);
    }
  }

  /** All requests of the trace have a time in [from, to). */
  predicate Within(trace: seq<Request>, from: int, to: int) {
    trace == [] || (Within(trace[..|trace| - 1], from, to) && from <= trace[|trace| - 1].time < to)
  }

  /** A span of one window length meets at most two aligned windows, and misses nothing of a trace within the span. */
  lemma {:induction false} SpanInTwoWindows(trace: seq<Request>, limit: int, windowSeconds: nat, tenant: string,
                                            from: nat)
    requires windowSeconds > 0
    ensures var w := WindowOf(from, windowSeconds);
            AllowedIn(trace, limit, windowSeconds, tenant, from, from + windowSeconds * 1000)
            <= AllowedIn(trace, limit, windowSeconds, tenant,
                         WindowStart(w, windowSeconds), WindowStart(w + 1, windowSeconds))
             + AllowedIn(trace, limit, windowSeconds, tenant,
                         WindowStart(w + 1, windowSeconds), WindowStart(w + 2, windowSeconds))
    ensures var w := WindowOf(from, windowSeconds);
            Within(trace, from, from + windowSeconds * 1000) ==>
              AllowedIn(trace, limit, windowSeconds, tenant, from, from + windowSeconds * 1000)
              == AllowedIn(trace, limit, windowSeconds, tenant,
                           WindowStart(w, windowSeconds), WindowStart(w + 1, windowSeconds))
               + AllowedIn(trace, limit, windowSeconds, tenant,
                           WindowStart(w + 1, windowSeconds), WindowStart(w + 2, windowSeconds))
  {
    if trace != [] {
      SpanInTwoWindows(trace[..|trace| - 1], limit, windowSeconds, tenant, from);
      var w := WindowOf(from, windowSeconds);
      WindowBounds(from, windowSeconds);
      NextStart(w, windowSeconds);
      NextStart(w + 1, windowSeconds);
    }
  }

  /** For every timely trace: at most `limit` allowed per window and at most twice that in any span of its length. */
  lemma RateBound(trace: seq<Request>, limit: int, windowSeconds: nat, tenant: string, from: nat)
    requires windowSeconds > 0 && Timely(trace, windowSeconds)
    ensures AllowedIn(trace, limit, windowSeconds, tenant, from, from + windowSeconds * 1000) <= 2 * Capacity(limit)
  {
    var w := WindowOf(from, windowSeconds);
    SpanInTwoWindows(trace, limit, windowSeconds, tenant, from);
    AllowedPerWindow(trace, limit, windowSeconds, Key(tenant, w));
    AllowedPerWindow(trace, limit, windowSeconds, Key(tenant, w + 1));
  }

  // ---------- When a span respects the limit ----------

  /** The trace with the same request `n` times more. */
  function Burst(trace: seq<Request>, r: Request, n: nat): seq<Request> {
    if n == 0 then trace else Burst(trace, r, n - 1) + [r]
  }

  lemma {:induction false} BurstWithin(trace: seq<Request>, r: Request, n: nat, from: int, to: int)
    requires Within(trace, from, to) && from <= r.time < to
    ensures Within(Burst(trace, r, n), from, to)
  {
    if n > 0 {
      BurstWithin(trace, r, n - 1, from, to);
      assert Burst(trace, r, n)[..|Burst(trace, r, n)| - 1] == Burst(trace, r, n - 1);
    }
  }

  lemma {:induction false} BurstPrompt(trace: seq<Request>, r: Request, n: nat, windowSeconds: nat)
    requires windowSeconds > 0 && Prompt(trace, windowSeconds) && PromptOne(r, windowSeconds)
    ensures Prompt(Burst(trace, r, n), windowSeconds)
  {
    if n > 0 {
      BurstPrompt(trace, r, n - 1, windowSeconds);
      PromptSnoc(Burst(trace, r, n - 1), r, windowSeconds);
    }
  }

  lemma PromptSnoc(trace: seq<Request>, r: Request, windowSeconds: nat)
    requires windowSeconds > 0 && Prompt(trace, windowSeconds) && PromptOne(r, windowSeconds)
    ensures Prompt(trace + [r], windowSeconds)
  {
    assert (trace + [r])[..|trace|] == trace;
  }

  lemma HitsSnoc(trace: seq<Request>, r: Request, windowSeconds: nat, key: Key)
    requires windowSeconds > 0
    ensures Hits(trace + [r], windowSeconds, key)
            == Hits(trace, windowSeconds, key) + if key == KeyOf(r, windowSeconds) then 1 else 0
  {
    assert (trace + [r])[..|trace|] == trace;
  }

  /** All requests of a burst count, in their own window only. */
  lemma {:induction false} BurstHits(trace: seq<Request>, r: Request, n: nat, windowSeconds: nat, key: Key)
    requires windowSeconds > 0
    ensures Hits(Burst(trace, r, n), windowSeconds, key)
            == Hits(trace, windowSeconds, key) + if key == KeyOf(r, windowSeconds) then n else 0
  {
    if n > 0 {
      BurstHits(trace, r, n - 1, windowSeconds, key);
      HitsSnoc(Burst(trace, r, n - 1), r, windowSeconds, key);
    }
  }

  /** The last moment before an edge and the edge lie in neighbouring windows. */
  lemma AtEdge(w: nat, windowSeconds: nat)
    requires windowSeconds > 0
    ensures WindowStart(w + 1, windowSeconds) > 0
    ensures WindowOf(WindowStart(w + 1, windowSeconds) - 1, windowSeconds) == w
    ensures WindowOf(WindowStart(w + 1, windowSeconds), windowSeconds) == w + 1
  {
    NextStart(w, windowSeconds);
    NextStart(w + 1, windowSeconds);
    WindowUnique(WindowStart(w + 1, windowSeconds) - 1, w, windowSeconds);
    WindowUnique(WindowStart(w + 1, windowSeconds), w + 1, windowSeconds);
  }

  function AllowedInSpan(trace: seq<Request>, limit: int, windowSeconds: nat, tenant: string, from: nat): nat
    requires windowSeconds > 0
  {
    AllowedIn(trace, limit, windowSeconds, tenant, from, from + windowSeconds * 1000)
  }

  /** The span starts where a window does. */
  predicate OnEdge(from: nat, windowSeconds: nat)
    requires windowSeconds > 0
  {
    from == WindowStart(WindowOf(from, windowSeconds), windowSeconds)
  }

  /** A span that does not start on an edge contains the next edge and the moment before it. */
  lemma EdgeInside(from: nat, windowSeconds: nat) returns (edge: nat)
    requires windowSeconds > 0 && !OnEdge(from, windowSeconds)
    ensures from < edge < from + windowSeconds * 1000
    ensures WindowOf(edge - 1, windowSeconds) == WindowOf(from, windowSeconds)
    ensures WindowOf(edge, windowSeconds) == WindowOf(from, windowSeconds) + 1
  {
    var w := WindowOf(from, windowSeconds);
    edge := WindowStart(w + 1, windowSeconds);
    WindowBounds(from, windowSeconds);
    NextStart(w, windowSeconds);
    AtEdge(w, windowSeconds);
  }

  /** A trace within the span that fills both windows it meets. */
  lemma BothWindowsFull(trace: seq<Request>, limit: nat, windowSeconds: nat, tenant: string, from: nat, w: nat)
    requires windowSeconds > 0 && w == WindowOf(from, windowSeconds)
    requires Within(trace, from, from + windowSeconds * 1000) && Timely(trace, windowSeconds)
    requires Hits(trace, windowSeconds, Key(tenant, w)) == limit
    requires Hits(trace, windowSeconds, Key(tenant, w + 1)) == limit
    ensures AllowedInSpan(trace, limit, windowSeconds, tenant, from) == 2 * limit
  {
    SpanInTwoWindows(trace, limit, windowSeconds, tenant, from);
    AllowedPerWindow(trace, limit, windowSeconds, Key(tenant, w));
    AllowedPerWindow(trace, limit, windowSeconds, Key(tenant, w + 1));
  }

  /** The windows are aligned, not sliding: `limit` requests just before an edge and `limit` just after all pass. */
  lemma EdgeBurst(limit: nat, windowSeconds: nat, tenant: string, from: nat) returns (trace: seq<Request>)
    requires windowSeconds > 0 && !OnEdge(from, windowSeconds)
    ensures Timely(trace, windowSeconds)
    ensures AllowedInSpan(trace, limit, windowSeconds, tenant, from) == 2 * limit
  {
    var edge := EdgeInside(from, windowSeconds);
    trace := TwoBursts(Request(tenant, edge - 1, edge - 1), Request(tenant, edge, edge), limit, windowSeconds, from,
                       from + windowSeconds * 1000);
    BothWindowsFull(trace, limit, windowSeconds, tenant, from, WindowOf(from, windowSeconds));
  }

  /** Bursts in different windows fill a counter each. */
  lemma TwoBursts(first: Request, second: Request, limit: nat, windowSeconds: nat, from: nat, to: nat)
    returns (trace: seq<Request>)
    requires windowSeconds > 0 && from <= first.time < to && from <= second.time < to
    requires WindowOf(first.time, windowSeconds) != WindowOf(second.time, windowSeconds)
    requires first.arrival == first.time && second.arrival == second.time
    ensures Within(trace, from, to) && Timely(trace, windowSeconds)
    ensures Hits(trace, windowSeconds, Key(first.tenant, WindowOf(first.time, windowSeconds))) == limit
    ensures Hits(trace, windowSeconds, Key(second.tenant, WindowOf(second.time, windowSeconds))) == limit
  {
    trace := Burst(Burst([], first, limit), second, limit);
    BurstWithin([], first, limit, from, to);
    BurstWithin(Burst([], first, limit), second, limit, from, to);
    WindowBounds(first.time, windowSeconds);
    WindowBounds(second.time, windowSeconds);
    BurstPrompt([], first, limit, windowSeconds);
    BurstPrompt(Burst([], first, limit), second, limit, windowSeconds);
    CounterOutlivesWindow(trace, windowSeconds);
    TwoBurstHits(first, second, limit, windowSeconds);
  }

  lemma TwoBurstHits(first: Request, second: Request, limit: nat, windowSeconds: nat)
    requires windowSeconds > 0 && WindowOf(first.time, windowSeconds) != WindowOf(second.time, windowSeconds)
    ensures var trace := Burst(Burst([], first, limit), second, limit);
            && Hits(trace, windowSeconds, Key(first.tenant, WindowOf(first.time, windowSeconds))) == limit
            && Hits(trace, windowSeconds, Key(second.tenant, WindowOf(second.time, windowSeconds))) == limit
  {
    var k1 := Key(first.tenant, WindowOf(first.time, windowSeconds));
    var k2 := Key(second.tenant, WindowOf(second.time, windowSeconds));
    BurstHits([], first, limit, windowSeconds, k1);
    BurstHits([], first, limit, windowSeconds, k2);
    BurstHits(Burst([], first, limit), second, limit, windowSeconds, k1);
    BurstHits(Burst([], first, limit), second, limit, windowSeconds, k2);
  }

  /** Starting on an edge is being a multiple of the window length. */
  lemma EdgesAreMultiples(from: nat, windowSeconds: nat)
    requires windowSeconds > 0
    ensures OnEdge(from, windowSeconds) <==> exists w: nat :: from == w * (windowSeconds * 1000)
  {
    if w: nat :| from == w * (windowSeconds * 1000) {
      assert w * (windowSeconds * 1000) == WindowStart(w, windowSeconds);
      NextStart(w, windowSeconds);
      WindowUnique(from, w, windowSeconds);
    }
    if OnEdge(from, windowSeconds) {
      var w := WindowOf(from, windowSeconds);
      assert w * (windowSeconds * 1000) == WindowStart(w, windowSeconds);
    }
  }

  /**
   * For a positive limit, a span of one window length admits at most `limit` requests on every timely trace if and only
   * if it starts on a window edge; any other span admits `2 * limit` on some timely trace.
   */
  lemma SpanRespectsLimitExactly(limit: nat, windowSeconds: nat, tenant: string, from: nat)
    requires windowSeconds > 0 && limit > 0
    ensures OnEdge(from, windowSeconds)
            <==> forall trace: seq<Request> | Timely(trace, windowSeconds) ::
                   AllowedInSpan(trace, limit, windowSeconds, tenant, from) <= limit
    ensures !OnEdge(from, windowSeconds) ==>
              exists trace: seq<Request> ::
                Timely(trace, windowSeconds) && AllowedInSpan(trace, limit, windowSeconds, tenant, from) == 2 * limit
  {
    var w := WindowOf(from, windowSeconds);
    WindowBounds(from, windowSeconds);
    NextStart(w, windowSeconds);
    if OnEdge(from, windowSeconds) {
      forall trace: seq<Request> | Timely(trace, windowSeconds)
        ensures AllowedInSpan(trace, limit, windowSeconds, tenant, from) <= limit
      {
        AllowedPerWindow(trace, limit, windowSeconds, Key(tenant, w));
      }
    } else {
      var trace := EdgeBurst(limit, windowSeconds, tenant, from);
    }
  }

  // ---------- The limiter ----------

  class RateLimiter {
    var counters: Counters
    ghost var trace: seq<Request>      // the requests so far

    constructor ()
      ensures counters == map[] && trace == [] && forall windowSeconds: nat | windowSeconds > 0 :: Valid(windowSeconds)
    {
      counters := map[];
      trace := [];
    }

    /** All requests so far were limited with this window length. */
    ghost predicate Valid(windowSeconds: nat)
      requires windowSeconds > 0
      reads this
    {
      counters == After(trace, windowSeconds)
    }

    /**
     * A request in time is allowed exactly if fewer than `limit` requests of the tenant, allowed or not, came before it
     * in its window; what remains is what the limit leaves after it.  `arrival` is when Redis counts it.
     */
    method CheckRateLimit(tenantId: string, limit: int, windowSeconds: nat, time: nat, arrival: nat)
      returns (allowed: bool, remaining: nat)
      requires windowSeconds > 0 && Valid(windowSeconds)
      modifies this
      ensures Valid(windowSeconds) && trace == old(trace) + [Request(tenantId, time, arrival)]
      ensures allowed <==> LastAllowed(trace, limit, windowSeconds)
      ensures var before := Hits(old(trace), windowSeconds, Key(tenantId, WindowOf(time, windowSeconds)));
              Timely(trace, windowSeconds) ==>
                (allowed <==> before < limit) && remaining == if allowed then limit - before - 1 else 0
    {
      ghost var was, r := trace, Request(tenantId, time, arrival);
      if Timely(was, windowSeconds) {
        NextHit(was, r, windowSeconds);
      }
      assert (was + [r])[..|was|] == was;
      var now := time / 1000;
      var window := now / windowSeconds;
      var current := Incr(Key(tenantId, window), windowSeconds, time, arrival);
      trace := was + [r];
      allowed := current <= limit;
      remaining := if limit - current > 0 then limit - current else 0;
    }

    /** INCR, and EXPIRE at the first increment. */
    method Incr(key: Key, windowSeconds: nat, ghost time: nat, arrival: nat) returns (current: nat)
      requires windowSeconds > 0 && key.window == WindowOf(time, windowSeconds)
      modifies this`counters
      ensures counters == Hit(old(counters), Request(key.tenant, time, arrival), windowSeconds)
      ensures current == Increment(old(counters), key, arrival)
    {
      current := 1;
      var expiresAt := 0;
      if key in counters && arrival < counters[key].expiresAt {
        current := counters[key].count + 1;
        expiresAt := counters[key].expiresAt;
      }
      if current == 1 {
        expiresAt := arrival + (windowSeconds + 1) * 1000;
      }
      counters := counters[key := Counter(current, expiresAt)];
    }
  }
}
