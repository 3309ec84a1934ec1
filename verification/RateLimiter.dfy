/** Per-client rate limiting with buckets that refill continuously, and the sweep
    that drops full buckets. Looking a bucket up and taking a token is one step. */
module RateLimiter {
  datatype Bucket = Bucket(tokens: real, last: real)

  /** What refills over a duration, and the burst that caps a bucket. */
  datatype Policy = Policy(refill: real -> real, burst: nat)

  predicate AddsUp(p: Policy, a: real, b: real) {
    p.refill(a + b) == p.refill(a) + p.refill(b)
  }

  /** Refilling is never negative and adds up over adjacent durations. */
  ghost predicate ValidPolicy(p: Policy) {
    && (forall a :: a >= 0.0 ==> p.refill(a) >= 0.0)
    && (forall a, b {:trigger AddsUp(p, a, b)} :: a >= 0.0 && b >= 0.0 ==> AddsUp(p, a, b))
  }

  /** The configured limiter: `rate` tokens per second. */
  function PerSecond(rate: real, burst: nat): Policy {
    Policy((seconds: real) => rate * seconds, burst)
  }

  lemma PerSecondIsValid(rate: real, burst: nat)
    requires rate >= 0.0
    ensures ValidPolicy(PerSecond(rate, burst))
    ensures forall seconds :: PerSecond(rate, burst).refill(seconds) == rate * seconds
  {
    var p := PerSecond(rate, burst);
    forall a: real | a >= 0.0 ensures p.refill(a) >= 0.0 {
    }
    forall a: real, b: real ensures AddsUp(p, a, b) {
      assert rate * (a + b) == rate * a + rate * b;
    }
  }

  function Min(a: real, b: real): real {
    if a <= b then a else b
  }

  /** Tokens available at `now`: refilled since `last`, capped at the burst. */
  function Available(p: Policy, b: Bucket, now: real): real {
    Min(p.burst as real, b.tokens + p.refill(now - b.last))
  }

  /** A new limiter starts full. */
  function FullBucket(p: Policy, now: real): Bucket {
    Bucket(p.burst as real, now)
  }

  /** Allow: takes one token if there is one, otherwise leaves the bucket. */
  function Take(p: Policy, b: Bucket, now: real): (Bucket, bool) {
    var tokens := Available(p, b, now);
    if tokens >= 1.0 then (Bucket(tokens - 1.0, now), true) else (b, false)
  }

  type Limiters = map<string, Bucket>

  function BucketOf(p: Policy, limiters: Limiters, client: string, now: real): Bucket {
    if client in limiters then limiters[client] else FullBucket(p, now)
  }

  /** getLimiter followed by Allow. */
  function Admitted(p: Policy, limiters: Limiters, client: string, now: real): (Limiters, bool) {
    var (bucket, ok) := Take(p, BucketOf(p, limiters, client, now), now);
    (limiters[client := bucket], ok)
  }

  /** cleanupOldLimiters: the limiters that are not full. */
  function Swept(p: Policy, limiters: Limiters, now: real): Limiters {
    map client | client in limiters && Available(p, limiters[client], now) != p.burst as real :: limiters[client]
  }

  class Limiter {
    const policy: Policy
    var limiters: Limiters

    constructor (policy: Policy)
      ensures this.policy == policy && limiters == map[]
    {
      this.policy, limiters := policy, map[];
    }

    method Admit(client: string, now: real) returns (ok: bool)
      modifies this
      ensures (limiters, ok) == Admitted(policy, old(limiters), client, now)
    {
      if client !in limiters {
        limiters := limiters[client := FullBucket(policy, now)];
      }
      var tokens := Available(policy, limiters[client], now);
      ghost var before := old(limiters);
      if tokens >= 1.0 {
        limiters := limiters[client := Bucket(tokens - 1.0, now)];
        assert limiters == before[client := Bucket(tokens - 1.0, now)];
        return true;
      }
      assert limiters == before[client := BucketOf(policy, before, client, now)];
      return false;
    }

    method Sweep(now: real)
      modifies this
      ensures limiters == Swept(policy, old(limiters), now)
    {
      ghost var before := limiters;
      var todo := limiters.Keys;
      while todo != {}
        invariant todo <= before.Keys
        invariant limiters == map client | client in before
          && (client in todo || Available(policy, before[client], now) != policy.burst as real) :: before[client]
        decreases |todo|
      {
        var client :| client in todo;
        todo := todo - {client};
        if Available(policy, limiters[client], now) == policy.burst as real {
          limiters := limiters - {client};
        }
      }
    }
  }

  // ----- Traces -----

  datatype Event = Request(client: string, now: real) | Cleanup(now: real)

  /** Event times never go back. */
  predicate Ordered(events: seq<Event>, start: real) {
    events == [] || (events[0].now >= start && Ordered(events[1..], events[0].now))
  }

  /** The decisions along a trace; `sweeping` tells whether cleanups act. */
  function Decisions(p: Policy, limiters: Limiters, events: seq<Event>, sweeping: bool): seq<bool>
    decreases |events|
  {
    if events == [] then []
    else
      match events[0]
      case Request(client, now) =>
        var (next, ok) := Admitted(p, limiters, client, now);
        [ok] + Decisions(p, next, events[1..], sweeping)
      case Cleanup(now) =>
        Decisions(p, if sweeping then Swept(p, limiters, now) else limiters, events[1..], sweeping)
  }

  /** Buckets hold between zero and the burst, and were last used by `now`. */
  predicate Sane(p: Policy, limiters: Limiters, now: real) {
    forall client :: client in limiters ==>
      0.0 <= limiters[client].tokens <= p.burst as real && limiters[client].last <= now
  }

  /** What a client may still spend at `now`; an unknown client has a full bucket. */
  function Credit(p: Policy, limiters: Limiters, client: string, now: real): real {
    if client in limiters then Available(p, limiters[client], now) else p.burst as real
  }

  lemma RefillAdds(p: Policy, a: real, b: real, c: real)
    requires ValidPolicy(p) && a <= b <= c
    ensures p.refill(c - a) == p.refill(b - a) + p.refill(c - b)
  {
    assert AddsUp(p, b - a, c - b);
    assert (b - a) + (c - b) == c - a;
  }

  lemma RefillOfNothing(p: Policy)
    requires ValidPolicy(p)
    ensures p.refill(0.0) == 0.0
  {
    assert AddsUp(p, 0.0, 0.0);
  }

  /** Refilling from `now` on only depends on what is available at `now`. */
  lemma AvailableLater(p: Policy, b: Bucket, now: real, later: real)
    requires ValidPolicy(p) && b.tokens <= p.burst as real && b.last <= now <= later
    ensures Available(p, b, later) == Min(p.burst as real, Available(p, b, now) + p.refill(later - now))
  {
    RefillAdds(p, b.last, now, later);
  }

  lemma CreditLater(p: Policy, limiters: Limiters, client: string, now: real, later: real)
    requires ValidPolicy(p) && Sane(p, limiters, now) && now <= later
    ensures Credit(p, limiters, client, later)
      == Min(p.burst as real, Credit(p, limiters, client, now) + p.refill(later - now))
    ensures 0.0 <= Credit(p, limiters, client, now) <= p.burst as real
  {
    if client in limiters {
      AvailableLater(p, limiters[client], now, later);
    }
  }

  /** Two maps no client can tell apart at `now`, hence never after. */
  ghost predicate Alike(p: Policy, a: Limiters, b: Limiters, now: real) {
    forall client :: Credit(p, a, client, now) == Credit(p, b, client, now)
  }

  lemma AlikeLater(p: Policy, a: Limiters, b: Limiters, now: real, later: real)
    requires ValidPolicy(p) && Sane(p, a, now) && Sane(p, b, now) && now <= later
    requires Alike(p, a, b, now)
    ensures Alike(p, a, b, later)
  {
    forall client ensures Credit(p, a, client, later) == Credit(p, b, client, later) {
      CreditLater(p, a, client, now, later);
      CreditLater(p, b, client, now, later);
    }
  }

  /** Admission decides on the credit alone and spends exactly one token of it. */
  lemma AdmittedCredit(p: Policy, limiters: Limiters, client: string, now: real)
    requires ValidPolicy(p) && Sane(p, limiters, now)
    ensures var (next, ok) := Admitted(p, limiters, client, now);
      && (ok <==> Credit(p, limiters, client, now) >= 1.0)
      && Sane(p, next, now)
      && (forall other :: Credit(p, next, other, now) ==
            if other == client && ok then Credit(p, limiters, other, now) - 1.0 else Credit(p, limiters, other, now))
  {
    RefillOfNothing(p);
    CreditLater(p, limiters, client, now, now);
  }

  /** A sweep drops full buckets only, which nobody notices. */
  lemma SweepIsInvisible(p: Policy, limiters: Limiters, now: real)
    requires Sane(p, limiters, now)
    ensures Sane(p, Swept(p, limiters, now), now) && Alike(p, limiters, Swept(p, limiters, now), now)
  {
  }

  /** Dropping full limiters at arbitrary times changes no decision. */
  /** A sweep drops exactly the clients whose bucket has refilled to the burst, and
      keeps the buckets of the others. */
  lemma SweptExactly(p: Policy, limiters: Limiters, now: real)
    ensures var swept := Swept(p, limiters, now);
      && (forall client :: client in swept <==>
            client in limiters && limiters[client].tokens + p.refill(now - limiters[client].last) < p.burst as real)
      && (forall client :: client in swept ==> swept[client] == limiters[client])
  {
  }

  /** A request is admitted exactly when one token is there: of the burst for a new
      client, of what was left and what has refilled for a known one, which the burst
      caps. It takes that token and touches no other client; a refused request of a
      known client leaves everything. */
  lemma AdmittedExactly(p: Policy, limiters: Limiters, client: string, now: real)
    ensures var (after, ok) := Admitted(p, limiters, client, now);
      && after.Keys == limiters.Keys + {client}
      && (forall other :: other in limiters && other != client ==> after[other] == limiters[other])
      && (client !in limiters ==>
            && (ok <==> p.burst as real + p.refill(0.0) >= 1.0 && p.burst >= 1)
            && (!ok ==> after[client] == Bucket(p.burst as real, now)))
      && (client in limiters ==>
            && (ok <==> limiters[client].tokens + p.refill(now - limiters[client].last) >= 1.0 && p.burst >= 1)
            && (!ok ==> after == limiters))
      && (ok ==> after[client].last == now)
      && (ok && client in limiters ==>
            var refilled := limiters[client].tokens + p.refill(now - limiters[client].last);
            after[client].tokens == (if refilled >= p.burst as real then p.burst as real else refilled) - 1.0)
  {
    if client in limiters && !Admitted(p, limiters, client, now).1 {
      assert limiters[client := limiters[client]] == limiters;
    }
  }

  lemma {:induction false} EvictionIsInvisible(p: Policy, a: Limiters, b: Limiters, events: seq<Event>, start: real)
    requires ValidPolicy(p) && Sane(p, a, start) && Sane(p, b, start) && Alike(p, a, b, start) && Ordered(events, start)
    ensures Decisions(p, a, events, true) == Decisions(p, b, events, false)
    decreases |events|
  {
    if events != [] {
      var now := events[0].now;
      AlikeLater(p, a, b, start, now);
      match events[0] {
        case Request(client, _) =>
          AdmittedCredit(p, a, client, now);
          AdmittedCredit(p, b, client, now);
          EvictionIsInvisible(p, Admitted(p, a, client, now).0, Admitted(p, b, client, now).0, events[1..], now);
        case Cleanup(_) =>
          SweepIsInvisible(p, a, now);
          EvictionIsInvisible(p, Swept(p, a, now), b, events[1..], now);
      }
    }
  }

  // ----- The bound -----

  function EndTime(events: seq<Event>, start: real): real {
    if events == [] then start else events[|events| - 1].now
  }

  lemma {:induction false} EndsAfterStart(events: seq<Event>, start: real)
    requires Ordered(events, start)
    ensures EndTime(events, start) >= start
    ensures events != [] ==> EndTime(events, start) == EndTime(events[1..], events[0].now)
  {
    if |events| > 1 {
      EndsAfterStart(events[1..], events[0].now);
    }
  }

  /** A metered system seen from outside: how it moves, which events it admits, the
      credit it holds at a time, and what refills between two times. */
  datatype Meter<!S> = Meter(step: (S, Event) -> S, admits: (S, Event) -> bool, sane: (S, real) -> bool,
                             credit: (S, real) -> real, refill: (real, real) -> real)

  function Tally<S>(m: Meter<S>, s: S, events: seq<Event>): nat
    decreases |events|
  {
    if events == [] then 0
    else (if m.admits(s, events[0]) then 1 else 0) + Tally(m, m.step(s, events[0]), events[1..])
  }

  ghost predicate PaysFor<S(!new)>(m: Meter<S>, s: S, e: Event, start: real) {
    && m.sane(m.step(s, e), e.now)
    && (if m.admits(s, e) then 1.0 else 0.0) + m.credit(m.step(s, e), e.now)
      <= m.credit(s, start) + m.refill(start, e.now)
  }

  /** At each event the credit pays for an admission out of what was there plus
      what refilled. */
  ghost predicate Pays<S(!new)>(m: Meter<S>) {
    && (forall s, start {:trigger m.credit(s, start)} :: m.sane(s, start) ==> m.credit(s, start) >= 0.0)
    && (forall s, e: Event, start {:trigger PaysFor(m, s, e, start)} :: m.sane(s, start) && start <= e.now ==>
      PaysFor(m, s, e, start))
  }

  /** What refills along a trace, event by event. */
  function Refilled(refill: (real, real) -> real, events: seq<Event>, start: real): real
    decreases |events|
  {
    if events == [] then 0.0
    else refill(start, events[0].now) + Refilled(refill, events[1..], events[0].now)
  }

  lemma {:induction false} TallyWithinCredit<S(!new)>(m: Meter<S>, s: S, events: seq<Event>, start: real)
    requires Pays(m) && m.sane(s, start) && Ordered(events, start)
    ensures Tally(m, s, events) as real <= m.credit(s, start) + Refilled(m.refill, events, start)
    decreases |events|
  {
    if events != [] {
      assert PaysFor(m, s, events[0], start);
      TallyWithinCredit(m, m.step(s, events[0]), events[1..], events[0].now);
    }
  }

  /** The map after one event. */
  function AfterEvent(p: Policy, limiters: Limiters, e: Event): Limiters {
    match e
    case Request(client, now) => Admitted(p, limiters, client, now).0
    case Cleanup(now) => Swept(p, limiters, now)
  }

  /** Whether an event admits a request of the client. */
  predicate Admits(p: Policy, limiters: Limiters, e: Event, client: string) {
    e.Request? && e.client == client && Admitted(p, limiters, client, e.now).1
  }

  /** The rate limiter as one client meets it. */
  function Account(p: Policy, client: string): Meter<Limiters> {
    Meter((limiters, e) => AfterEvent(p, limiters, e),
          (limiters, e) => Admits(p, limiters, e, client),
          (limiters, now) => Sane(p, limiters, now),
          (limiters, now) => Credit(p, limiters, client, now),
          (start, end) => p.refill(end - start))
  }

  /** The map after a trace. */
  function AfterEvents(p: Policy, limiters: Limiters, events: seq<Event>): Limiters
    decreases |events|
  {
    if events == [] then limiters
    else AfterEvents(p, AfterEvent(p, limiters, events[0]), events[1..])
  }

  /** How many of a client's requests a trace admits. */
  function Admissions(p: Policy, limiters: Limiters, events: seq<Event>, client: string): nat {
    Tally(Account(p, client), limiters, events)
  }

  /** One event spends at most what was there plus what refilled. */
  lemma EventSpends(p: Policy, limiters: Limiters, e: Event, client: string, start: real)
    requires ValidPolicy(p) && Sane(p, limiters, start) && start <= e.now
    ensures Sane(p, AfterEvent(p, limiters, e), e.now)
    ensures (if Admits(p, limiters, e, client) then 1.0 else 0.0) + Credit(p, AfterEvent(p, limiters, e), client, e.now)
      <= Credit(p, limiters, client, start) + p.refill(e.now - start)
  {
    CreditLater(p, limiters, client, start, e.now);
    if e.Request? {
      AdmittedCredit(p, limiters, e.client, e.now);
    } else {
      SweepIsInvisible(p, limiters, e.now);
    }
  }

  lemma AccountPays(p: Policy, client: string)
    requires ValidPolicy(p)
    ensures Pays(Account(p, client))
  {
    var m := Account(p, client);
    forall limiters, start | m.sane(limiters, start) ensures m.credit(limiters, start) >= 0.0 {
      CreditLater(p, limiters, client, start, start);
    }
    forall limiters, e: Event, start | m.sane(limiters, start) && start <= e.now ensures PaysFor(m, limiters, e, start)
    {
      EventSpends(p, limiters, e, client, start);
    }
  }

  lemma {:induction false} RefilledIsLinear(p: Policy, client: string, events: seq<Event>, start: real)
    requires ValidPolicy(p) && Ordered(events, start)
    ensures Refilled(Account(p, client).refill, events, start) == p.refill(EndTime(events, start) - start)
    decreases |events|
  {
    EndsAfterStart(events, start);
    if events == [] {
      RefillOfNothing(p);
    } else {
      EndsAfterStart(events[1..], events[0].now);
      RefilledIsLinear(p, client, events[1..], events[0].now);
      RefillAdds(p, start, events[0].now, EndTime(events, start));
    }
  }

  lemma {:induction false} StaysSane(p: Policy, limiters: Limiters, events: seq<Event>, start: real)
    requires ValidPolicy(p) && Sane(p, limiters, start) && Ordered(events, start)
    ensures Sane(p, AfterEvents(p, limiters, events), EndTime(events, start))
    decreases |events|
  {
    EndsAfterStart(events, start);
    if events != [] {
      var now := events[0].now;
      match events[0] {
        case Request(c, _) =>
          AdmittedCredit(p, limiters, c, now);
          StaysSane(p, Admitted(p, limiters, c, now).0, events[1..], now);
        case Cleanup(_) =>
          SweepIsInvisible(p, limiters, now);
          StaysSane(p, Swept(p, limiters, now), events[1..], now);
      }
    }
  }

  lemma RefillsByEnd(p: Policy, used: real, length: real)
    requires ValidPolicy(p) && 0.0 <= used <= length
    ensures p.refill(used) <= p.refill(length)
  {
    assert AddsUp(p, used, length - used);
  }

  lemma CreditAtMostBurst(p: Policy, limiters: Limiters, client: string, now: real)
    requires ValidPolicy(p) && Sane(p, limiters, now)
    ensures Account(p, client).credit(limiters, now) <= p.burst as real
  {
    CreditLater(p, limiters, client, now, now);
  }

  lemma WithinBurst<S(!new)>(m: Meter<S>, s: S, events: seq<Event>, start: real, burst: real, refill: real)
    requires Pays(m) && m.sane(s, start) && Ordered(events, start)
    requires m.credit(s, start) <= burst && Refilled(m.refill, events, start) <= refill
    ensures Tally(m, s, events) as real <= burst + refill
  {
    TallyWithinCredit(m, s, events, start);
  }

  /** From an empty limiter, in any window of the given length that follows any
      history, a client is admitted at most burst plus what refills over the window: with PerSecond,
      burst + rate * length. */
  lemma WindowBounded(p: Policy, history: seq<Event>, window: seq<Event>, client: string, start: real, opening: real,
                      length: real)
    requires ValidPolicy(p) && Ordered(history, start) && EndTime(history, start) <= opening
    requires Ordered(window, opening) && EndTime(window, opening) <= opening + length
    ensures Admissions(p, AfterEvents(p, map[], history), window, client) as real <= p.burst as real + p.refill(length)
  {
    var limiters := AfterEvents(p, map[], history);
    StaysSane(p, map[], history, start);
    AccountPays(p, client);
    CreditAtMostBurst(p, limiters, client, opening);
    EndsAfterStart(window, opening);
    RefilledIsLinear(p, client, window, opening);
    RefillsByEnd(p, EndTime(window, opening) - opening, length);
    WithinBurst(Account(p, client), limiters, window, opening, p.burst as real, p.refill(length));
  }
}
