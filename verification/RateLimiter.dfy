/** The sliding-window rate limiter of backend/api/middleware/auth_middleware.py.

    A request is checked, then served, then counted; the check and the count are two separate
    atomic steps, so requests of one identity interleave.  The class keeps the middleware's
    only state, the timestamp lists; the machine below it runs arbitrary interleavings. */
module RateLimiter {
  import opened Collections

  datatype Limit = Limit(requests: int, window: nat)

  datatype Limits = Limits(guest: Limit, authenticated: Limit)

  /** The falsy user_id and session_id of the source are the empty string here. */
  datatype Actor = Actor(userId: string, sessionId: string, isAuthenticated: bool)

  function Identifier(a: Actor): string {
    if a.userId != "" then a.userId else if a.sessionId != "" then a.sessionId else "anonymous"
  }

  function LimitFor(limits: Limits, a: Actor): Limit {
    if a.isAuthenticated then limits.authenticated else limits.guest
  }

  type Counts = map<string, seq<int>>

  function Recent(stamps: seq<int>, windowStart: int): (r: seq<int>)
    ensures forall t :: t in r ==> t > windowStart
  {
    if stamps == [] then []
    else if stamps[0] > windowStart then [stamps[0]] + Recent(stamps[1..], windowStart)
    else Recent(stamps[1..], windowStart)
  }

  function StampsOf(counts: Counts, user: string): seq<int> {
    if user in counts then counts[user] else []
  }

  function Pruned(counts: Counts, user: string, windowStart: int): Counts {
    if user in counts then counts[user := Recent(counts[user], windowStart)] else counts
  }

  function Counted(counts: Counts, user: string, now: int): Counts {
    counts[user := StampsOf(counts, user) + [now]]
  }

  // ----- the middleware object -----

  class RateLimitMiddleware {
    const rateLimits: Limits
    var requestCounts: Counts

    constructor (limits: Limits)
      ensures rateLimits == limits && requestCounts == map[]
    {
      rateLimits := limits;
      requestCounts := map[];
    }

    method IsRateLimited(actor: Actor, now: int) returns (limited: bool)
      modifies this
      ensures requestCounts == Pruned(old(requestCounts), Identifier(actor), now - LimitFor(rateLimits, actor).window)
      ensures limited <==> |StampsOf(requestCounts, Identifier(actor))| >= LimitFor(rateLimits, actor).requests
      ensures forall u :: u != Identifier(actor) ==> StampsOf(requestCounts, u) == StampsOf(old(requestCounts), u)
    {
      var limit := LimitFor(rateLimits, actor);
      var user := Identifier(actor);
      if user in requestCounts {
        var kept := FilterRecent(requestCounts[user], now - limit.window);
        requestCounts := requestCounts[user := kept];
      }
      limited := |StampsOf(requestCounts, user)| >= limit.requests;
    }

    method IncrementRequestCount(actor: Actor, now: int)
      modifies this
      ensures requestCounts == Counted(old(requestCounts), Identifier(actor), now)
      ensures forall u :: u != Identifier(actor) ==> StampsOf(requestCounts, u) == StampsOf(old(requestCounts), u)
    {
      var user := Identifier(actor);
      if user !in requestCounts {
        requestCounts := requestCounts[user := []];
      }
      requestCounts := requestCounts[user := requestCounts[user] + [now]];
    }
  }

  /** The list comprehension of _is_rate_limited. */
  method FilterRecent(stamps: seq<int>, windowStart: int) returns (kept: seq<int>)
    ensures kept == Recent(stamps, windowStart)
  {
    kept := [];
    for i := 0 to |stamps|
      invariant kept + Recent(stamps[i..], windowStart) == Recent(stamps, windowStart)
    {
      assert stamps[i..][1..] == stamps[i + 1..];
      if stamps[i] > windowStart {
        kept := kept + [stamps[i]];
      }
    }
  }

  // ----- interleaved requests -----

  /** One atomic step of some request.  `Abort` is a call_next that raises: it is never counted. */
  datatype Event =
    | Check(id: nat, actor: Actor, now: int)
    | Count(id: nat, now: int)
    | Abort(id: nat)

  /** `counted` remembers every timestamp ever appended, including the pruned ones. */
  datatype State = State(counts: Counts, inFlight: map<nat, Actor>, clock: int, counted: Counts)

  const Initial := State(map[], map[], 0, map[])

  predicate Enabled(s: State, e: Event) {
    match e
    case Check(id, _, now) => id !in s.inFlight && s.clock <= now
    case Count(id, now) => id in s.inFlight && s.clock <= now
    case Abort(id) => id in s.inFlight
  }

  function Next(limits: Limits, s: State, e: Event): State
    requires Enabled(s, e)
  {
    match e
    case Check(id, actor, now) =>
      var limit := LimitFor(limits, actor);
      var counts := Pruned(s.counts, Identifier(actor), now - limit.window);
      var limited := |StampsOf(counts, Identifier(actor))| >= limit.requests;
      s.(counts := counts, clock := now, inFlight := if limited then s.inFlight else s.inFlight[id := actor])
    case Count(id, now) =>
      var user := Identifier(s.inFlight[id]);
      State(Counted(s.counts, user, now), s.inFlight - {id}, now, Counted(s.counted, user, now))
    case Abort(id) =>
      s.(inFlight := s.inFlight - {id})
  }

  ghost function InFlightOf(s: State, user: string): set<nat> {
    set id | id in s.inFlight && Identifier(s.inFlight[id]) == user
  }

  /** Every event is possible when it happens, at most `c` requests of `user` are ever in flight,
      and every check of `user` is made against the window `w` and at most `r` requests. */
  ghost predicate Legal(limits: Limits, s: State, es: seq<Event>, user: string, r: nat, w: nat, c: nat)
    decreases |es|
  {
    |es| > 0 ==>
      && Enabled(s, es[0])
      && (es[0].Check? && Identifier(es[0].actor) == user ==>
            LimitFor(limits, es[0].actor).window == w && LimitFor(limits, es[0].actor).requests <= r)
      && |InFlightOf(Next(limits, s, es[0]), user)| <= c
      && Legal(limits, Next(limits, s, es[0]), es[1..], user, r, w, c)
  }

  ghost function Run(limits: Limits, s: State, es: seq<Event>, user: string, r: nat, w: nat, c: nat): State
    requires Legal(limits, s, es, user, r, w, c)
    decreases |es|
  {
    if es == [] then s else Run(limits, Next(limits, s, es[0]), es[1..], user, r, w, c)
  }

  /** How many of the timestamps lie in the half-open window (after, after + w]. */
  function InWindow(stamps: seq<int>, after: int, w: nat): nat {
    if stamps == [] then 0
    else (if after < stamps[0] <= after + w then 1 else 0) + InWindow(stamps[1..], after, w)
  }

  lemma {:induction false} InWindowAppend(stamps: seq<int>, t: int, after: int, w: nat)
    ensures InWindow(stamps + [t], after, w) == InWindow(stamps, after, w) + (if after < t <= after + w then 1 else 0)
  {
    if stamps != [] {
      InWindowAppend(stamps[1..], t, after, w);
      assert (stamps + [t])[1..] == stamps[1..] + [t];
    }
  }

  lemma {:induction false} RecentAppend(stamps: seq<int>, t: int, start: int)
    ensures Recent(stamps + [t], start) == Recent(stamps, start) + (if t > start then [t] else [])
  {
    if stamps != [] {
      RecentAppend(stamps[1..], t, start);
      assert (stamps + [t])[1..] == stamps[1..] + [t];
    }
  }

  lemma {:induction false} RecentRecent(stamps: seq<int>, start: int, later: int)
    requires start <= later
    ensures Recent(Recent(stamps, start), later) == Recent(stamps, later)
  {
    if stamps != [] {
      RecentRecent(stamps[1..], start, later);
      var rest := Recent(stamps[1..], start);
      if stamps[0] > start {
        assert ([stamps[0]] + rest)[1..] == rest;
      }
    }
  }

  lemma {:induction false} WindowWithinRecent(stamps: seq<int>, start: int, after: int, w: nat)
    requires start <= after
    ensures InWindow(stamps, after, w) <= |Recent(stamps, start)|
  {
    if stamps != [] {
      WindowWithinRecent(stamps[1..], start, after, w);
    }
  }

  /** What every step keeps.  The live list is the recent part of the whole history, and a window
      that can still receive a timestamp has room for all requests in flight. */
  ghost predicate Inv(s: State, user: string, r: nat, w: nat, c: nat) {
    && (exists p :: p <= s.clock - w && StampsOf(s.counts, user) == Recent(StampsOf(s.counted, user), p))
    && (forall t :: t in StampsOf(s.counted, user) ==> t <= s.clock)
    && (r == 0 ==> StampsOf(s.counted, user) == [] && InFlightOf(s, user) == {})
    && (r > 0 ==> forall a ::
          InWindow(StampsOf(s.counted, user), a, w) + (if a >= s.clock - w then |InFlightOf(s, user)| else 0) <=
            r - 1 + c)
  }

  lemma {:induction false} CheckKeepsInv(limits: Limits, s: State, e: Event, user: string, r: nat, w: nat, c: nat)
    requires Inv(s, user, r, w, c) && e.Check? && Enabled(s, e)
    requires Identifier(e.actor) == user ==>
               LimitFor(limits, e.actor).window == w && LimitFor(limits, e.actor).requests <= r
    requires |InFlightOf(Next(limits, s, e), user)| <= c
    ensures Inv(Next(limits, s, e), user, r, w, c)
  {
    var s' := Next(limits, s, e);
    var h := StampsOf(s.counted, user);
    var p :| p <= s.clock - w && StampsOf(s.counts, user) == Recent(h, p);
    if Identifier(e.actor) != user {
      assert InFlightOf(s', user) == InFlightOf(s, user);
      assert StampsOf(s'.counts, user) == Recent(StampsOf(s'.counted, user), p);
    } else {
      var start := e.now - w;
      RecentRecent(h, p, start);
      assert StampsOf(s'.counts, user) == Recent(StampsOf(s'.counted, user), start);
      if s'.inFlight == s.inFlight {
        assert InFlightOf(s', user) == InFlightOf(s, user);
      } else {
        forall a | a >= s'.clock - w
          ensures InWindow(h, a, w) <= r - 1
        {
          WindowWithinRecent(h, start, a, w);
        }
      }
    }
  }

  lemma {:induction false} CountKeepsInv(limits: Limits, s: State, e: Event, user: string, r: nat, w: nat, c: nat)
    requires w > 0
    requires Inv(s, user, r, w, c) && e.Count? && Enabled(s, e)
    ensures Inv(Next(limits, s, e), user, r, w, c)
  {
    var s' := Next(limits, s, e);
    var h := StampsOf(s.counted, user);
    var p :| p <= s.clock - w && StampsOf(s.counts, user) == Recent(h, p);
    if Identifier(s.inFlight[e.id]) != user {
      assert InFlightOf(s', user) == InFlightOf(s, user);
      assert StampsOf(s'.counts, user) == Recent(StampsOf(s'.counted, user), p);
    } else {
      RecentAppend(h, e.now, p);
      assert StampsOf(s'.counts, user) == Recent(StampsOf(s'.counted, user), p);
      OneMoreCounted(limits, s, e, user, r, w, c);
    }
  }

  /** The request leaves the flight and enters the windows. */
  lemma OneMoreCounted(limits: Limits, s: State, e: Event, user: string, r: nat, w: nat, c: nat)
    requires w > 0 && Inv(s, user, r, w, c) && e.Count? && Enabled(s, e) && Identifier(s.inFlight[e.id]) == user
    ensures
      var s' := Next(limits, s, e);
      && r > 0
      && forall a ::
           InWindow(StampsOf(s'.counted, user), a, w) + (if a >= s'.clock - w then |InFlightOf(s', user)| else 0) <=
             r - 1 + c
  {
    var s' := Next(limits, s, e);
    assert e.id in InFlightOf(s, user) && InFlightOf(s', user) == InFlightOf(s, user) - {e.id};
    forall a
      ensures InWindow(StampsOf(s'.counted, user), a, w) + (if a >= s'.clock - w then |InFlightOf(s', user)| else 0) <=
          r - 1 + c
    {
      InWindowAppend(StampsOf(s.counted, user), e.now, a, w);
    }
  }

  lemma {:induction false} AbortKeepsInv(limits: Limits, s: State, e: Event, user: string, r: nat, w: nat, c: nat)
    requires Inv(s, user, r, w, c) && e.Abort? && Enabled(s, e)
    ensures Inv(Next(limits, s, e), user, r, w, c)
  {
    var s' := Next(limits, s, e);
    assert InFlightOf(s', user) == InFlightOf(s, user) - {e.id};
    var p :| p <= s.clock - w && StampsOf(s.counts, user) == Recent(StampsOf(s.counted, user), p);
    assert StampsOf(s'.counts, user) == Recent(StampsOf(s'.counted, user), p);
  }

  lemma {:induction false} RunKeepsInv(limits: Limits, s: State, es: seq<Event>, user: string, r: nat, w: nat, c: nat)
    requires w > 0
    requires Legal(limits, s, es, user, r, w, c)
    requires Inv(s, user, r, w, c)
    ensures Inv(Run(limits, s, es, user, r, w, c), user, r, w, c)
    decreases |es|
  {
    if es != [] {
      match es[0] {
        case Check(_, _, _) => CheckKeepsInv(limits, s, es[0], user, r, w, c);
        case Count(_, _) => CountKeepsInv(limits, s, es[0], user, r, w, c);
        case Abort(_) => AbortKeepsInv(limits, s, es[0], user, r, w, c);
      }
      RunKeepsInv(limits, Next(limits, s, es[0]), es[1..], user, r, w, c);
    }
  }

  lemma {:induction false} NothingInEmptyWindow(stamps: seq<int>, after: int)
    ensures InWindow(stamps, after, 0) == 0
  {
    if stamps != [] {
      NothingInEmptyWindow(stamps[1..], after);
    }
  }

  lemma {:induction false} RecentIsWindow(stamps: seq<int>, start: int, w: nat)
    requires forall t :: t in stamps ==> t <= start + w
    ensures |Recent(stamps, start)| == InWindow(stamps, start, w)
  {
    if stamps != [] {
      assert stamps[0] in stamps;
      forall t | t in stamps[1..] ensures t <= start + w { assert t in stamps; }
      RecentIsWindow(stamps[1..], start, w);
    }
  }

  /** Pruning is invisible: after any run, a check admits a request iff fewer than the configured
      number of requests were ever counted during the last `w` seconds. */
  lemma CheckDecidesByWindow(limits: Limits, es: seq<Event>, e: Event, r: nat, w: nat, c: nat)
    requires e.Check? && LimitFor(limits, e.actor) == Limit(r, w) && w > 0
    requires Legal(limits, Initial, es, Identifier(e.actor), r, w, c)
    requires Enabled(Run(limits, Initial, es, Identifier(e.actor), r, w, c), e)
    ensures
      var s := Run(limits, Initial, es, Identifier(e.actor), r, w, c);
      e.id in Next(limits, s, e).inFlight <==> InWindow(StampsOf(s.counted, Identifier(e.actor)), e.now - w, w) < r
  {
    var user := Identifier(e.actor);
    var s := Run(limits, Initial, es, user, r, w, c);
    InitialInv(user, r, w, c);
    RunKeepsInv(limits, Initial, es, user, r, w, c);
    var h := StampsOf(s.counted, user);
    var p :| p <= s.clock - w && StampsOf(s.counts, user) == Recent(h, p);
    RecentRecent(h, p, e.now - w);
    RecentIsWindow(h, e.now - w, w);
    assert StampsOf(Pruned(s.counts, user, e.now - w), user) == Recent(h, e.now - w);
  }

  lemma InitialInv(user: string, r: nat, w: nat, c: nat)
    ensures Inv(Initial, user, r, w, c)
  {
    var none: set<nat> := {};
    assert InFlightOf(Initial, user) == none;
    assert StampsOf(Initial.counts, user) == Recent(StampsOf(Initial.counted, user), 0 - w);
  }

  /** Over any interleaving with at most `c` requests of `user` in flight, every window of `w`
      seconds holds at most r + c - 1 counted requests, the pruned ones included. */
  lemma RateBound(limits: Limits, es: seq<Event>, user: string, r: nat, w: nat, c: nat, after: int)
    requires Legal(limits, Initial, es, user, r, w, c)
    ensures InWindow(StampsOf(Run(limits, Initial, es, user, r, w, c).counted, user), after, w)
            <= if r == 0 then 0 else r + c - 1
  {
    if w == 0 {
      NothingInEmptyWindow(StampsOf(Run(limits, Initial, es, user, r, w, c).counted, user), after);
    } else {
      InitialInv(user, r, w, c);
      RunKeepsInv(limits, Initial, es, user, r, w, c);
    }
  }

  /** Requests served one at a time keep the configured limit. */
  lemma SerialRateBound(limits: Limits, es: seq<Event>, user: string, r: nat, w: nat, after: int)
    requires Legal(limits, Initial, es, user, r, w, 1)
    ensures InWindow(StampsOf(Run(limits, Initial, es, user, r, w, 1).counted, user), after, w) <= r
  {
    RateBound(limits, es, user, r, w, 1, after);
  }

  // ----- whose requests count -----

  /** Requests are counted under the user, without one under the session, and all others together. */
  predicate CountedUnder(a: Actor, key: string) {
    && (a.userId != "" ==> key == a.userId)
    && (a.userId == "" && a.sessionId != "" ==> key == a.sessionId)
    && (a.userId == "" && a.sessionId == "" ==> key == "anonymous")
  }

  function Since(start: int): int -> bool {
    (t: int) => t > start
  }

  lemma {:induction false} RecentIs(stamps: seq<int>, start: int)
    ensures Recent(stamps, start) == Filter(Since(start), stamps)
  {
    if stamps != [] {
      RecentIs(stamps[1..], start);
      FilterAppend(Since(start), [stamps[0]], stamps[1..]);
      assert stamps == [stamps[0]] + stamps[1..];
      assert Filter(Since(start), [stamps[0]]) == if stamps[0] > start then [stamps[0]] else [];
    }
  }

  /** A check admits a request if fewer stamps than its limit are younger than its window, and drops the others;
      guests and authenticated users have limits of their own. */
  lemma CheckIs(limits: Limits, s: State, e: Event, key: string)
    requires e.Check? && Enabled(s, e) && CountedUnder(e.actor, key)
    ensures
      var limit := if e.actor.isAuthenticated then limits.authenticated else limits.guest;
      var young := Filter(Since(e.now - limit.window), StampsOf(s.counts, key));
      var s' := Next(limits, s, e);
      && (e.id in s'.inFlight <==> |young| < limit.requests)
      && (|young| < limit.requests ==> s'.inFlight == s.inFlight[e.id := e.actor])
      && StampsOf(s'.counts, key) == young
      && forall other :: other != key ==> StampsOf(s'.counts, other) == StampsOf(s.counts, other)
  {
    var limit := if e.actor.isAuthenticated then limits.authenticated else limits.guest;
    RecentIs(StampsOf(s.counts, key), e.now - limit.window);
  }

  /** An answered request is counted once, at the time of its answer. */
  lemma CountIs(limits: Limits, s: State, e: Event, key: string)
    requires e.Count? && Enabled(s, e) && CountedUnder(s.inFlight[e.id], key)
    ensures
      var s' := Next(limits, s, e);
      && StampsOf(s'.counts, key) == StampsOf(s.counts, key) + [e.now] && s'.inFlight == s.inFlight - {e.id}
      && forall other :: other != key ==> StampsOf(s'.counts, other) == StampsOf(s.counts, other)
  {
  }

  // ----- the bound is reached -----

  function Ones(n: nat): seq<int> {
    seq(n, _ => 1)
  }

  lemma {:induction false} OnesInWindow(n: nat, w: nat)
    requires w > 0
    ensures InWindow(Ones(n), 0, w) == n
  {
    if n > 0 {
      OnesInWindow(n - 1, w);
      assert Ones(n)[1..] == Ones(n - 1);
    }
  }

  lemma {:induction false} OnesAreRecent(n: nat, start: int)
    requires start < 1
    ensures Recent(Ones(n), start) == Ones(n)
  {
    if n > 0 {
      OnesAreRecent(n - 1, start);
      assert Ones(n)[1..] == Ones(n - 1);
      assert Ones(n) == [1] + Ones(n - 1);
    }
  }

  /** The requests 0..m-1 of one actor. */
  function Flight(actor: Actor, m: nat): (flight: map<nat, Actor>)
    ensures |flight.Keys| == m
    ensures forall id: nat :: id in flight <==> id < m
    ensures forall id :: id in flight ==> flight[id] == actor
  {
    if m == 0 then map[]
    else
      assert (Flight(actor, m - 1)[m - 1 := actor]).Keys == Flight(actor, m - 1).Keys + {m - 1};
      Flight(actor, m - 1)[m - 1 := actor]
  }

  /** Second one at the latest: `k` requests of the actor were counted in it, and the requests
      0..m-1 are in flight. */
  ghost predicate At(s: State, actor: Actor, k: nat, m: nat) {
    && s.clock <= 1
    && StampsOf(s.counts, Identifier(actor)) == StampsOf(s.counted, Identifier(actor)) == Ones(k)
    && s.inFlight == Flight(actor, m)
  }

  lemma InFlightAt(s: State, actor: Actor, k: nat, m: nat)
    requires At(s, actor, k, m)
    ensures |InFlightOf(s, Identifier(actor))| == m
  {
    assert InFlightOf(s, Identifier(actor)) == Flight(actor, m).Keys;
  }

  lemma CountAt(limits: Limits, s: State, actor: Actor, k: nat, m: nat)
    requires At(s, actor, k, m + 1)
    ensures Enabled(s, Count(m, 1)) && At(Next(limits, s, Count(m, 1)), actor, k + 1, m)
  {
    assert Ones(k) + [1] == Ones(k + 1);
    assert Flight(actor, m + 1) - {m} == Flight(actor, m);
  }

  lemma PrunedAt(counts: Counts, user: string, k: nat, start: int)
    requires StampsOf(counts, user) == Ones(k) && start < 1
    ensures StampsOf(Pruned(counts, user, start), user) == Ones(k)
  {
    OnesAreRecent(k, start);
  }

  lemma CheckAt(limits: Limits, s: State, actor: Actor, k: nat, m: nat)
    requires At(s, actor, k, m) && LimitFor(limits, actor).window > 0 && k < LimitFor(limits, actor).requests
    ensures Enabled(s, Check(m, actor, 1)) && At(Next(limits, s, Check(m, actor, 1)), actor, k, m + 1)
  {
    PrunedAt(s.counts, Identifier(actor), k, 1 - LimitFor(limits, actor).window);
    assert |Ones(k)| == k;
  }

  /** All requests in flight are counted. */
  lemma {:induction false} CountAll(limits: Limits, s: State, actor: Actor, r: nat, w: nat, c: nat, k: nat, m: nat)
    returns (es: seq<Event>)
    requires At(s, actor, k, m) && m <= c
    ensures Legal(limits, s, es, Identifier(actor), r, w, c)
    ensures StampsOf(Run(limits, s, es, Identifier(actor), r, w, c).counted, Identifier(actor)) == Ones(k + m)
    decreases m
  {
    if m == 0 {
      es := [];
    } else {
      var e := Count(m - 1, 1);
      CountAt(limits, s, actor, k, m - 1);
      InFlightAt(Next(limits, s, e), actor, k + 1, m - 1);
      var rest := CountAll(limits, Next(limits, s, e), actor, r, w, c, k + 1, m - 1);
      es := [e] + rest;
      assert es[1..] == rest;
    }
  }

  /** One below the limit, `c` requests pass the check before any of them is counted. */
  lemma {:induction false} CheckThenCountAll(limits: Limits, s: State, actor: Actor, r: nat, w: nat, c: nat, m: nat)
    returns (es: seq<Event>)
    requires LimitFor(limits, actor) == Limit(r, w) && r > 0 && w > 0 && At(s, actor, r - 1, m) && m <= c
    ensures Legal(limits, s, es, Identifier(actor), r, w, c)
    ensures StampsOf(Run(limits, s, es, Identifier(actor), r, w, c).counted, Identifier(actor)) == Ones(r - 1 + c)
    decreases c - m
  {
    if m == c {
      es := CountAll(limits, s, actor, r, w, c, r - 1, c);
    } else {
      var e := Check(m, actor, 1);
      CheckAt(limits, s, actor, r - 1, m);
      InFlightAt(Next(limits, s, e), actor, r - 1, m + 1);
      var rest := CheckThenCountAll(limits, Next(limits, s, e), actor, r, w, c, m + 1);
      es := [e] + rest;
      assert es[1..] == rest;
    }
  }

  /** Requests one after the other up to one below the limit, then `c` at once. */
  lemma {:induction false} SerialThenOverlap(limits: Limits, s: State, actor: Actor, r: nat, w: nat, c: nat, k: nat)
    returns (es: seq<Event>)
    requires LimitFor(limits, actor) == Limit(r, w) && k < r && w > 0 && c >= 1 && At(s, actor, k, 0)
    ensures Legal(limits, s, es, Identifier(actor), r, w, c)
    ensures StampsOf(Run(limits, s, es, Identifier(actor), r, w, c).counted, Identifier(actor)) == Ones(r - 1 + c)
    decreases r - k
  {
    if k == r - 1 {
      es := CheckThenCountAll(limits, s, actor, r, w, c, 0);
    } else {
      var s1 := Next(limits, s, Check(0, actor, 1));
      CheckAt(limits, s, actor, k, 0);
      InFlightAt(s1, actor, k, 1);
      CountAt(limits, s1, actor, k, 0);
      var s2 := Next(limits, s1, Count(0, 1));
      InFlightAt(s2, actor, k + 1, 0);
      var rest := SerialThenOverlap(limits, s2, actor, r, w, c, k + 1);
      var tail := [Count(0, 1)] + rest;
      assert tail[1..] == rest;
      es := [Check(0, actor, 1)] + tail;
      assert es[1..] == tail;
    }
  }

  /** The bound r + c - 1 is exact: for every limit and every number of overlapping requests some
      run reaches it. */
  lemma BoundIsTight(limits: Limits, actor: Actor, r: nat, w: nat, c: nat) returns (es: seq<Event>)
    requires LimitFor(limits, actor) == Limit(r, w) && r > 0 && w > 0 && c >= 1
    ensures Legal(limits, Initial, es, Identifier(actor), r, w, c)
    ensures InWindow(StampsOf(Run(limits, Initial, es, Identifier(actor), r, w, c).counted, Identifier(actor)), 0, w)
            == r + c - 1
  {
    assert At(Initial, actor, 0, 0);
    es := SerialThenOverlap(limits, Initial, actor, r, w, c, 0);
    OnesInWindow(r - 1 + c, w);
  }

  /** No window of any run with at most `c` requests of `user` in flight holds more than `r`. */
  ghost predicate LimitKept(limits: Limits, user: string, r: nat, w: nat, c: nat) {
    forall es, after: int ::
      Legal(limits, Initial, es, user, r, w, c) ==>
        InWindow(StampsOf(Run(limits, Initial, es, user, r, w, c).counted, user), after, w) <= r
  }

  /** The configured limit is kept by every interleaving exactly if requests do not overlap, or the
      limit or the window is zero. */
  lemma LimitKeptIff(limits: Limits, actor: Actor, r: nat, w: nat, c: nat)
    requires LimitFor(limits, actor) == Limit(r, w)
    ensures LimitKept(limits, Identifier(actor), r, w, c) <==> r == 0 || w == 0 || c <= 1
  {
    var user := Identifier(actor);
    if r == 0 || w == 0 || c <= 1 {
      forall es, after: int | Legal(limits, Initial, es, user, r, w, c)
        ensures InWindow(StampsOf(Run(limits, Initial, es, user, r, w, c).counted, user), after, w) <= r
      {
        RateBound(limits, es, user, r, w, c, after);
        NothingInEmptyWindow(StampsOf(Run(limits, Initial, es, user, r, w, c).counted, user), after);
      }
    } else {
      var es := BoundIsTight(limits, actor, r, w, c);
      assert InWindow(StampsOf(Run(limits, Initial, es, user, r, w, c).counted, user), 0, w) > r;
    }
  }
}
